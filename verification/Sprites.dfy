/**
 The sprites of one scan line (fceux-am/src/ppu.cpp, lines 291-316 and 1457-1589).

 Sprites are painted into a line buffer from the last to the first, through tables that spread the bits
 of the pattern bytes, and the buffer is then copied over the background.  The specification asks, pixel
 by pixel, for the first sprite that is not transparent there.
 */
module Sprites {
  import opened Bits

  type Byte = b: nat | b < 0x100

  // ----- tables -----

  /** Four-bit values packed into a word, the first one lowest. */
  function Packed(vs: seq<nat>): nat {
    if vs == [] then 0 else vs[0] + 16 * Packed(vs[1..])
  }

  /** The bits of a pattern byte from left to right. */
  function Columns(x: Byte, n: nat): (vs: seq<nat>)
    requires n <= 8
    ensures |vs| == n
  {
    seq(n, k requires 0 <= k < n => Bit(x, 7 - k))
  }

  /** The palette bits of an attribute, shifted for each of eight pixels. */
  function Attributes(cc: nat, xo: nat, n: nat): (vs: seq<nat>)
    ensures |vs| == n
  {
    seq(n, k requires 0 <= k < n => 4 * (Shr(cc, 2 * ((k + xo) / 8)) % 4))
  }

  predicate Nibbles(vs: seq<nat>) {
    forall k :: 0 <= k < |vs| ==> vs[k] < 16
  }

  lemma {:induction false} PackedBound(vs: seq<nat>)
    requires Nibbles(vs)
    ensures Packed(vs) < Pow2(4 * |vs|)
  {
    if vs != [] {
      PackedBound(vs[1..]);
      FourMore(4 * |vs| - 4);
    }
  }

  lemma FourMore(k: nat)
    ensures Pow2(k + 4) == 16 * Pow2(k)
  {
    assert Pow2(k + 4) == 2 * Pow2(k + 3);
    assert Pow2(k + 3) == 2 * Pow2(k + 2);
    assert Pow2(k + 2) == 2 * Pow2(k + 1);
  }

  lemma ShlFourMore(x: nat, k: nat)
    ensures Shl(x, k + 4) == 16 * Shl(x, k)
  {
    assert Shl(x, k + 4) == 2 * Shl(x, k + 3);
    assert Shl(x, k + 3) == 2 * Shl(x, k + 2);
    assert Shl(x, k + 2) == 2 * Shl(x, k + 1);
  }

  /** A value added on top with `|=`. */
  lemma {:induction false} PackedAppend(vs: seq<nat>, v: nat)
    requires Nibbles(vs)
    ensures Packed(vs + [v]) == Packed(vs) + Shl(v, 4 * |vs|) == Or(Packed(vs), Shl(v, 4 * |vs|))
    decreases |vs|
  {
    hide Or;
    if vs == [] {
      assert Packed([] + [v]) == v by { assert ([] + [v])[1..] == []; }
    } else {
      PackedAppend(vs[1..], v);
      assert (vs + [v])[1..] == vs[1..] + [v];
      ShlFourMore(v, 4 * |vs| - 4);
    }
    PackedBound(vs);
    OrDisjoint(v, Packed(vs), 4 * |vs|);
  }

  /** The three tables. */
  class Tables {
    const ppulut1: array<nat>
    const ppulut2: array<nat>
    const ppulut3: array<nat>

    ghost predicate Valid()
      reads ppulut1, ppulut2, ppulut3
    {
      && ppulut1.Length == ppulut2.Length == 256 && ppulut3.Length == 128
      && (forall x: Byte :: ppulut1[x] == Packed(Columns(x, 8)))
      && (forall x: Byte :: ppulut2[x] == 2 * Packed(Columns(x, 8)))
      && (forall cc, xo :: 0 <= cc < 16 && 0 <= xo < 8 ==> ppulut3[xo + 8 * cc] == Packed(Attributes(cc, xo, 8)))
    }

    /** The loop over the columns of one byte. */
    static method Spread(x: Byte) returns (lut: nat)
      ensures lut == Packed(Columns(x, 8))
    {
      hide Packed, Or, Shl;
      lut := 0;
      PackedNothing();
      var y := 0;
      assert Columns(x, 0) == [];
      while y < 8
        invariant y <= 8 && lut == Packed(Columns(x, y))
      {
        assert Columns(x, y + 1) == Columns(x, y) + [Bit(x, 7 - y)];
        PackedAppend(Columns(x, y), Bit(x, 7 - y));
        lut := Or(lut, Shl(Shr(x, 7 - y) % 2, y * 4));
        y := y + 1;
      }
    }

    /** The loop over the pixels of one attribute and offset. */
    static method SpreadAttribute(cc: nat, xo: nat) returns (lut: nat)
      ensures lut == Packed(Attributes(cc, xo, 8))
    {
      hide Packed, Or, Shl, Shr;
      lut := 0;
      PackedNothing();
      var pixel := 0;
      assert Attributes(cc, xo, 0) == [];
      while pixel < 8
        invariant pixel <= 8 && lut == Packed(Attributes(cc, xo, pixel))
      {
        var shiftr := (pixel + xo) / 8 * 2;
        var v := Shr(cc, shiftr) % 4;
        assert Attributes(cc, xo, pixel + 1) == Attributes(cc, xo, pixel) + [4 * v];
        PackedAppend(Attributes(cc, xo, pixel), 4 * v);
        ShlFour(v, 4 * pixel);
        lut := Or(lut, Shl(v, 2 + pixel * 4));
        pixel := pixel + 1;
      }
    }

    /** `makeppulut`. */
    constructor ()
      ensures Valid() && fresh(ppulut1) && fresh(ppulut2) && fresh(ppulut3)
    {
      ppulut1 := new nat[256](_ => 0);
      ppulut2 := new nat[256](_ => 0);
      ppulut3 := new nat[128](_ => 0);
      new;
      hide Packed, Columns, Attributes;
      FillBytes(ppulut1, ppulut2);
      FillAttributes(ppulut3);
    }

    static method FillBytes(lut1: array<nat>, lut2: array<nat>)
      requires lut1.Length == lut2.Length == 256 && lut1 != lut2
      modifies lut1, lut2
      ensures forall x: Byte :: lut1[x] == Packed(Columns(x, 8)) && lut2[x] == 2 * Packed(Columns(x, 8))
    {
      hide Packed, Columns;
      var x := 0;
      while x < 256
        invariant x <= 256
        invariant forall i: Byte :: i < x ==> lut1[i] == Packed(Columns(i, 8)) && lut2[i] == 2 * Packed(Columns(i, 8))
      {
        var lut := Spread(x);
        lut1[x] := lut;
        lut2[x] := 2 * lut;
        x := x + 1;
      }
    }

    static method FillAttributes(lut3: array<nat>)
      requires lut3.Length == 128
      modifies lut3
      ensures forall cc, xo :: 0 <= cc < 16 && 0 <= xo < 8 ==> lut3[xo + 8 * cc] == Packed(Attributes(cc, xo, 8))
    {
      hide Packed, Attributes;
      var cc := 0;
      while cc < 16
        invariant cc <= 16
        invariant forall c, o :: 0 <= c < cc && 0 <= o < 8 ==> lut3[o + 8 * c] == Packed(Attributes(c, o, 8))
      {
        var xo := 0;
        while xo < 8
          invariant xo <= 8
          invariant forall c, o :: 0 <= c < cc && 0 <= o < 8 ==> lut3[o + 8 * c] == Packed(Attributes(c, o, 8))
          invariant forall o :: 0 <= o < xo ==> lut3[o + 8 * cc] == Packed(Attributes(cc, o, 8))
        {
          var lut := SpreadAttribute(cc, xo);
          lut3[xo + 8 * cc] := lut;
          xo := xo + 1;
        }
        cc := cc + 1;
      }
    }
  }

  lemma PackedNothing()
    ensures Packed([]) == 0
  {
  }

  lemma ShlFour(v: nat, k: nat)
    ensures Shl(4 * v, k) == Shl(v, 2 + k)
  {
    ShlShl(v, 2, k);
    assert Shl(v, 2) == 4 * v by { assert Shl(v, 2) == 2 * Shl(v, 1); }
  }

  // ----- the pixels of a sprite -----

  /** A sprite as fetched for the line: two pattern bytes, attributes, position. */
  datatype Sprite = Sprite(ca0: Byte, ca1: Byte, atr: Byte, x: Byte) {
    predicate Flipped() {
      Bit(atr, 6) == 1
    }

    predicate Behind() {
      Bit(atr, 5) == 1
    }

    /** The value of column `k` of the pattern, from the left as stored. */
    function Column(k: nat): (v: nat)
      requires k < 8
      ensures v < 4
    {
      Bit(ca0, 7 - k) + 2 * Bit(ca1, 7 - k)
    }

    /** The value at place `i` on the line. */
    function At(i: int): (v: nat)
      ensures v < 4
    {
      if !(x <= i < x + 8) then 0 else Column(if Flipped() then 7 - (i - x) else i - x)
    }

    predicate Covers(i: int) {
      At(i) != 0
    }
  }

  /** The palette memory: sixteen entries for the background and sixteen for the sprites, of six bits each. */
  predicate Palette(pal: seq<Byte>) {
    |pal| == 32 && forall k :: 0 <= k < 32 ==> pal[k] < 0x40
  }

  /** `READPAL`: greyscale keeps bits 4 and 5. */
  function ReadPal(pal: seq<Byte>, gray: bool, k: nat): (c: Byte)
    requires Palette(pal) && k < 32
    ensures c < 0x40
  {
    if gray then pal[k] / 16 % 4 * 16 else pal[k]
  }

  /** The entry of the palette memory for a pixel of value `v`: each of the four palettes of an attribute has its own four. */
  function SpriteEntry(s: Sprite, v: nat): (k: nat)
    requires v < 4
    ensures 0x10 <= k < 0x20 && k / 4 % 4 == s.atr % 4 && k % 4 == v
  {
    0x10 + s.atr % 4 * 4 + v
  }

  /** The byte that a pixel of value `v` puts into the line buffer; bit 6 marks sprites behind the background. */
  function Color(pal: seq<Byte>, gray: bool, s: Sprite, v: nat): (c: Byte)
    requires Palette(pal) && v < 4
    ensures c < 0x80 && (c >= 0x40 <==> s.Behind())
  {
    ReadPal(pal, gray, SpriteEntry(s, v)) + (if s.Behind() then 0x40 else 0)
  }

  // ----- writing to the palette memory -----

  /**
   A write through $2007 at `a`, from $3F00 on: six bits are kept.  The eight entries whose number is a
   multiple of four are one cell for writes to the first of each half; the other multiples go to a
   separate memory.
   */
  function PaletteWritten(pal: seq<Byte>, a: nat, v: Byte): (r: seq<Byte>)
    requires |pal| == 32
    ensures |r| == 32
  {
    if a % 4 == 0 then
      if a / 4 % 4 == 0 then seq<Byte>(32, k requires 0 <= k < 32 => if k % 4 == 0 then v % 0x40 else pal[k]) else pal
    else pal[a % 32 := v % 0x40]
  }

  /** Whether a write at `a` is one to entry `k`. */
  predicate Hits(a: nat, k: nat) {
    if a % 4 == 0 then a / 4 % 4 == 0 && k % 4 == 0 else a % 32 == k
  }

  function AfterWrites(writes: seq<(nat, Byte)>): (pal: seq<Byte>)
    ensures |pal| == 32
  {
    if writes == [] then seq<Byte>(32, _ => 0)
    else PaletteWritten(AfterWrites(writes[..|writes| - 1]), writes[|writes| - 1].0, writes[|writes| - 1].1)
  }

  /** The last value written to entry `k`. */
  function LastWritten(writes: seq<(nat, Byte)>, k: nat): Byte {
    if writes == [] then 0
    else if Hits(writes[|writes| - 1].0, k) then writes[|writes| - 1].1
    else LastWritten(writes[..|writes| - 1], k)
  }

  /**
   From power-on, after any writes, every entry holds the lower six bits of what was last written to it:
   so the memory is a palette, and the eight entries of the backdrop are equal.
   */
  lemma {:induction false} PaletteAlways(writes: seq<(nat, Byte)>)
    ensures Palette(AfterWrites(writes))
    ensures forall k: nat :: k < 32 ==> AfterWrites(writes)[k] == LastWritten(writes, k) % 0x40
    ensures forall k: nat :: k < 32 && k % 4 == 0 ==> AfterWrites(writes)[k] == AfterWrites(writes)[0]
    decreases |writes|
  {
    hide AfterWrites, LastWritten;
    forall k: nat | k < 32
      ensures AfterWrites(writes)[k] == LastWritten(writes, k) % 0x40 && AfterWrites(writes)[k] < 0x40
      ensures k % 4 == 0 ==> AfterWrites(writes)[k] == AfterWrites(writes)[0]
    {
      EntryAlways(writes, k);
      EntryAlways(writes, 0);
      if k % 4 == 0 {
        SameCell(writes, k);
      }
    }
  }

  lemma {:induction false} EntryAlways(writes: seq<(nat, Byte)>, k: nat)
    requires k < 32
    ensures AfterWrites(writes)[k] == LastWritten(writes, k) % 0x40
    decreases |writes|
  {
    hide PaletteWritten, Hits;
    if writes != [] {
      var last := writes[|writes| - 1];
      EntryAlways(writes[..|writes| - 1], k);
      WrittenAt(AfterWrites(writes[..|writes| - 1]), last.0, last.1, k);
    }
  }

  lemma WrittenAt(pal: seq<Byte>, a: nat, v: Byte, k: nat)
    requires |pal| == 32 && k < 32
    ensures PaletteWritten(pal, a, v)[k] == if Hits(a, k) then v % 0x40 else pal[k]
  {
  }

  lemma {:induction false} SameCell(writes: seq<(nat, Byte)>, k: nat)
    requires k < 32 && k % 4 == 0
    ensures LastWritten(writes, k) == LastWritten(writes, 0)
    decreases |writes|
  {
    hide Hits;
    if writes != [] {
      SameHits(writes[|writes| - 1].0, k);
      SameCell(writes[..|writes| - 1], k);
    }
  }

  lemma SameHits(a: nat, k: nat)
    requires k < 32 && k % 4 == 0
    ensures Hits(a, k) <==> Hits(a, 0)
  {
    if a % 4 != 0 {
      assert a % 32 % 4 == a % 4;
    }
  }

  lemma Multiples()
    ensures forall k: nat :: k < 32 ==> (k % 4 == 0 <==> k in {0, 4, 8, 0xC, 0x10, 0x14, 0x18, 0x1C})
  {
  }

  class PaletteMemory {
    const PALRAM: array<Byte>
    const UPALRAM: array<Byte>

    ghost predicate Valid()
      reads PALRAM, UPALRAM
    {
      && PALRAM.Length == 32 && UPALRAM.Length == 3 && PALRAM != UPALRAM
      && Palette(PALRAM[..]) && forall k :: 0 <= k < 3 ==> UPALRAM[k] < 0x40
    }

    /** Power-on. */
    constructor ()
      ensures Valid() && fresh(PALRAM) && fresh(UPALRAM) && PALRAM[..] == AfterWrites([])
    {
      PALRAM := new Byte[32](_ => 0);
      UPALRAM := new Byte[3](_ => 0);
    }

    /** The palette's part of `FFCEUX_PPUWrite_Default`. */
    method Write(a: nat, v: Byte)
      requires Valid()
      modifies PALRAM, UPALRAM
      ensures Valid() && PALRAM[..] == PaletteWritten(old(PALRAM[..]), a, v)
      ensures UPALRAM[..] == if a % 4 == 0 && a / 4 % 4 != 0 then old(UPALRAM[..])[a / 4 % 4 - 1 := v % 0x40] else old(UPALRAM[..])
    {
      if a % 4 == 0 {
        if a / 4 % 4 == 0 {
          Fill(v % 0x40);
          assert PALRAM[..] == PaletteWritten(old(PALRAM[..]), a, v);
        } else {
          UPALRAM[a / 4 % 4 - 1] := v % 0x40;
        }
      } else {
        PALRAM[a % 32] := v % 0x40;
      }
    }

    /** The eight assignments for the backdrop. */
    method Fill(c: Byte)
      requires PALRAM.Length == 32
      modifies PALRAM
      ensures forall k: nat :: k < 32 ==> PALRAM[k] == if k % 4 == 0 then c else old(PALRAM[k])
    {
      Multiples();
      PALRAM[0x0C] := c;
      PALRAM[0x08] := c;
      PALRAM[0x04] := c;
      PALRAM[0x00] := c;
      PALRAM[0x1C] := c;
      PALRAM[0x18] := c;
      PALRAM[0x14] := c;
      PALRAM[0x10] := c;
    }
  }

  // ----- painting -----

  const LINE: nat := 256 + 8

  /** One sprite painted over a line. */
  function Paint(pal: seq<Byte>, gray: bool, line: seq<Byte>, s: Sprite): (r: seq<Byte>)
    requires Palette(pal) && |line| == LINE
    ensures |r| == LINE
  {
    seq(LINE, i requires 0 <= i < LINE => if s.Covers(i) then Color(pal, gray, s, s.At(i)) else line[i])
  }

  /** The sprites painted from the last to the first. */
  function PaintAll(pal: seq<Byte>, gray: bool, line: seq<Byte>, sprites: seq<Sprite>): (r: seq<Byte>)
    requires Palette(pal) && |line| == LINE
    ensures |r| == LINE
  {
    if sprites == [] then line
    else Paint(pal, gray, PaintAll(pal, gray, line, sprites[1..]), sprites[0])
  }

  /** The first sprite that is not transparent at `i`, or their number if there is none. */
  function Top(sprites: seq<Sprite>, i: int): (n: nat)
    ensures n <= |sprites|
    ensures n < |sprites| ==> sprites[n].Covers(i)
    ensures forall k :: 0 <= k < n ==> !sprites[k].Covers(i)
  {
    if sprites == [] then 0 else if sprites[0].Covers(i) then 0 else 1 + Top(sprites[1..], i)
  }

  /** Painting backwards leaves the first sprite on top. */
  lemma {:induction false} PaintedIsTop(pal: seq<Byte>, gray: bool, line: seq<Byte>, sprites: seq<Sprite>, i: nat)
    requires Palette(pal) && |line| == LINE && i < LINE
    ensures var n := Top(sprites, i);
            PaintAll(pal, gray, line, sprites)[i]
            == if n < |sprites| then Color(pal, gray, sprites[n], sprites[n].At(i)) else line[i]
    decreases |sprites|
  {
    hide Color, Sprite.At;
    if sprites != [] {
      PaintedIsTop(pal, gray, line, sprites[1..], i);
    }
  }

  // ----- the tables give the pixels -----

  function Doubled(vs: seq<nat>): (ws: seq<nat>)
    ensures |ws| == |vs|
  {
    seq(|vs|, k requires 0 <= k < |vs| => 2 * vs[k])
  }

  lemma {:induction false} PackedDoubled(vs: seq<nat>)
    ensures Packed(Doubled(vs)) == 2 * Packed(vs)
    decreases |vs|
  {
    if vs != [] {
      assert Doubled(vs)[1..] == Doubled(vs[1..]);
      PackedDoubled(vs[1..]);
    }
  }

  function Sums(vs: seq<nat>, ws: seq<nat>): (us: seq<nat>)
    requires |vs| == |ws|
    ensures |us| == |vs|
  {
    seq(|vs|, k requires 0 <= k < |vs| => vs[k] + ws[k])
  }

  /** Low and high plane do not meet. */
  lemma {:induction false} OrPacked(vs: seq<nat>, ws: seq<nat>)
    requires |vs| == |ws| && (forall k :: 0 <= k < |vs| ==> vs[k] in {0, 1} && ws[k] in {0, 2})
    ensures Or(Packed(vs), Packed(ws)) == Packed(Sums(vs, ws))
    decreases |vs|
  {
    hide Or;
    if vs == [] {
      OrZero(0);
    } else {
      OrPacked(vs[1..], ws[1..]);
      assert Sums(vs, ws)[1..] == Sums(vs[1..], ws[1..]);
      OrNibble(vs[0], Packed(vs[1..]), ws[0], Packed(ws[1..]));
    }
  }

  lemma OrNibble(v: nat, x: nat, w: nat, y: nat)
    requires v in {0, 1} && w in {0, 2}
    ensures Or(v + 16 * x, w + 16 * y) == v + w + 16 * Or(x, y)
  {
    OrSmall(v, w);
    hide *;
    OrSplit(v + 16 * x, w + 16 * y, 4);
    NibbleSplit(v, x);
    NibbleSplit(w, y);
    ShlFourIs(Or(x, y));
  }

  lemma OrSmall(v: nat, w: nat)
    requires v in {0, 1} && w in {0, 2}
    ensures Or(v, w) == v + w
  {
    OrZero(v);
    OrZero(w);
    OrHalf(1, 2);
    OrHalf(0, 1);
  }

  lemma ShlFourIs(x: nat)
    ensures Shl(x, 4) == 16 * x
  {
    ShlFourMore(x, 0);
  }

  lemma NibbleSplit(v: nat, x: nat)
    requires v < 16
    ensures Shr(v + 16 * x, 4) == x && Low(v + 16 * x, 4) == v
  {
    ShlFourIs(x);
    assert Pow2(4) == 16 by { WidthPowers(); }
    SplitUnique(x, v, 4);
  }

  /** The pixel values from column `k` on. */
  function Pixels(s: Sprite, k: nat): (vs: seq<nat>)
    requires k <= 8
    ensures |vs| == 8 - k
  {
    seq<nat>(8 - k, j requires 0 <= j < 8 - k => s.Column(k + j))
  }

  lemma PixelData(s: Sprite)
    ensures Or(Packed(Columns(s.ca0, 8)), 2 * Packed(Columns(s.ca1, 8))) == Packed(Pixels(s, 0))
  {
    hide Or, Packed, Bit;
    PackedDoubled(Columns(s.ca1, 8));
    OrPacked(Columns(s.ca0, 8), Doubled(Columns(s.ca1, 8)));
    assert Sums(Columns(s.ca0, 8), Doubled(Columns(s.ca1, 8))) == Pixels(s, 0);
  }

  /** `pixdata & 3` is the value of the next column, and `pixdata >>= 4` moves on. */
  lemma PixelStep(s: Sprite, k: nat)
    requires k < 8
    ensures Packed(Pixels(s, k)) % 4 == s.Column(k) && Packed(Pixels(s, k)) / 16 == Packed(Pixels(s, k + 1))
  {
    hide Sprite.Column;
    assert Pixels(s, k)[1..] == Pixels(s, k + 1);
    LowestNibble(s.Column(k), Packed(Pixels(s, k + 1)));
  }

  lemma LowestNibble(v: nat, rest: nat)
    requires v < 4
    ensures (v + 16 * rest) % 4 == v && (v + 16 * rest) / 16 == rest
  {
    DivModUnique(v + 16 * rest, 16, rest, v);
    DivModUnique(v + 16 * rest, 4, 4 * rest, v);
  }

  /** A bit of `J` says that the column is not transparent. */
  lemma Opaque(s: Sprite, k: nat)
    requires k < 8
    ensures Bit(Or(s.ca0, s.ca1), 7 - k) == if s.Column(k) != 0 then 1 else 0
  {
    hide Or, Shr;
    BitwiseMeaning(s.ca0, s.ca1, 7 - k);
  }

  /** If `J` is zero, the sprite is transparent everywhere. */
  lemma Transparent(s: Sprite, i: int)
    requires Or(s.ca0, s.ca1) == 0
    ensures !s.Covers(i)
  {
    hide Or;
    if s.x <= i < s.x + 8 {
      var k: nat := if s.Flipped() then 7 - (i - s.x) else i - s.x;
      Opaque(s, k);
      ZeroBit(7 - k);
    }
  }

  lemma {:induction false} ZeroBit(k: nat)
    ensures Bit(0, k) == 0
  {
    if k > 0 {
      ZeroBit(k - 1);
    }
  }

  // ----- copying over the background -----

  /** What a pixel of the picture becomes: bit 6 of a background pixel says that it is transparent. */
  function Shown(t: Byte, background: Byte): Byte {
    if t / 0x80 % 2 == 0 && (t / 0x40 % 2 == 0 || background / 0x40 % 2 == 1) then t else background
  }

  predicate BackgroundTransparent(background: Byte) {
    background / 0x40 % 2 == 1
  }

  /**
   Through painting and copying: a pixel shows the first sprite that is not transparent there, unless that
   sprite is behind the background and the background is not transparent.
   */
  lemma PixelShown(pal: seq<Byte>, gray: bool, sprites: seq<Sprite>, line: seq<Byte>, background: Byte, i: nat)
    requires Palette(pal) && |line| == LINE && i < 256 && line[i] == 0x80
    ensures var n := Top(sprites, i);
            Shown(PaintAll(pal, gray, line, sprites)[i], background)
            == if n == |sprites| || (sprites[n].Behind() && !BackgroundTransparent(background)) then background
               else Color(pal, gray, sprites[n], sprites[n].At(i))
  {
    hide ReadPal, Sprite.At, Sprite.Behind, PaintAll, Top;
    PaintedIsTop(pal, gray, line, sprites, i);
    var n := Top(sprites, i);
    if n < |sprites| {
      ColorMarks(Color(pal, gray, sprites[n], sprites[n].At(i)));
    }
  }

  lemma ColorMarks(c: Byte)
    requires c < 0x80
    ensures c / 0x80 % 2 == 0 && (c / 0x40 % 2 == 0 <==> c < 0x40)
  {
  }

  /** The colour of a written byte: six bits of it, or in greyscale two. */
  function Seen(w: Byte, gray: bool): Byte {
    if gray then w / 16 % 4 * 16 else w % 0x40
  }

  /** Entries of other palettes, and those of the background, do not matter. */
  lemma ColorOfEntry(pal: seq<Byte>, qal: seq<Byte>, gray: bool, s: Sprite, v: nat)
    requires Palette(pal) && Palette(qal) && v < 4
    ensures pal[SpriteEntry(s, v)] == qal[SpriteEntry(s, v)] ==> Color(pal, gray, s, v) == Color(qal, gray, s, v)
    ensures Color(pal, gray, s, v) % 0x40 == Seen(pal[SpriteEntry(s, v)], gray)
  {
    hide Sprite.Behind;
  }

  lemma SeenSixBits(w: Byte, gray: bool)
    ensures Seen(w % 0x40, gray) == Seen(w, gray)
  {
  }

  /**
   From what is written to the palette to the picture: where the first sprite that is not transparent is
   shown, the pixel has the colour last written to the entry for its palette and value, or its mirrors.
   */
  lemma PixelColour(writes: seq<(nat, Byte)>, gray: bool, sprites: seq<Sprite>, line: seq<Byte>, background: Byte, i: nat)
    requires |line| == LINE && i < 256 && line[i] == 0x80
    ensures var pal, n := AfterWrites(writes), Top(sprites, i);
            Palette(pal)
            && (n < |sprites| && (sprites[n].Behind() ==> BackgroundTransparent(background))
                ==> Shown(PaintAll(pal, gray, line, sprites)[i], background) % 0x40
                    == Seen(LastWritten(writes, SpriteEntry(sprites[n], sprites[n].At(i))), gray))
  {
    hide AfterWrites, LastWritten, PaintAll, Top, Sprite.At, Sprite.Behind, Color, Seen, SpriteEntry, Shown;
    PaletteAlways(writes);
    var pal, n := AfterWrites(writes), Top(sprites, i);
    PixelShown(pal, gray, sprites, line, background, i);
    if n < |sprites| {
      var k := SpriteEntry(sprites[n], sprites[n].At(i));
      ColorOfEntry(pal, pal, gray, sprites[n], sprites[n].At(i));
      SeenSixBits(LastWritten(writes, k), gray);
    }
  }

  // ----- the program -----

  /** The bits of a byte in the opposite order. */
  function Mirrored(x: Byte): Byte {
    x % 2 * 0x80 + x / 2 % 2 * 0x40 + x / 4 % 2 * 0x20 + x / 8 % 2 * 0x10
    + x / 16 % 2 * 8 + x / 32 % 2 * 4 + x / 64 % 2 * 2 + x / 128
  }

  class LineBuffer {
    const tables: Tables
    const sprlinebuf: array<Byte>
    var numsprites: nat
    var SpriteBlurp: bool
    var spork: bool
    var sphitx: nat
    var sphitdata: Byte

    ghost predicate Valid()
      reads tables.ppulut1, tables.ppulut2, tables.ppulut3
    {
      && tables.Valid() && sprlinebuf.Length == LINE
      && (sprlinebuf as object) !in {tables.ppulut1 as object, tables.ppulut2 as object, tables.ppulut3 as object}
    }

    constructor ()
      ensures Valid() && fresh(tables) && fresh(sprlinebuf)
      ensures !spork && numsprites == 0 && !SpriteBlurp && sphitx == 0x100
    {
      tables := new Tables();
      sprlinebuf := new Byte[LINE](_ => 0);
      numsprites, SpriteBlurp, spork, sphitx, sphitdata := 0, false, false, 0x100, 0;
    }

    /** The eight columns of one sprite, which the source writes out one after the other. */
    method PaintSprite(pal: seq<Byte>, gray: bool, s: Sprite, pixels: nat, J: Byte)
      requires Valid() && Palette(pal)
      requires pixels == Packed(Pixels(s, 0)) && J == Or(s.ca0, s.ca1)
      modifies sprlinebuf
      ensures sprlinebuf[..] == Paint(pal, gray, old(sprlinebuf[..]), s)
    {
      hide Packed, Or, ReadPal, Bit, Pixels;
      var pixdata, k := pixels, 0;
      ghost var before := sprlinebuf[..];
      while k < 8
        invariant k <= 8 && pixdata == Packed(Pixels(s, k))
        invariant forall i :: 0 <= i < LINE ==>
                    sprlinebuf[i] == if Painted(s, k, i) then Color(pal, gray, s, s.At(i)) else before[i]
      {
        PixelStep(s, k);
        Opaque(s, k);
        var at := s.x + (if s.Flipped() then 7 - k else k);
        AtColumn(s, k);
        hide Sprite.At, Sprite.Column;
        if Bit(J, 7 - k) == 1 {
          sprlinebuf[at] := Color(pal, gray, s, pixdata % 4);
        }
        pixdata, k := pixdata / 16, k + 1;
      }
    }

    /** One sprite of the loop; `note` says that it is the one whose hit data are wanted. */
    method RefreshSprite(pal: seq<Byte>, gray: bool, s: Sprite, note: bool)
      requires Valid() && Palette(pal)
      modifies sprlinebuf, this`sphitx, this`sphitdata
      ensures sprlinebuf[..] == Paint(pal, gray, old(sprlinebuf[..]), s)
      ensures note && Or(s.ca0, s.ca1) != 0 ==> sphitx == s.x && sphitdata == HitData(s)
    {
      hide Packed, Or, Color, Mirrored, Paint, Pixels, Sprite.Covers;
      var pixdata := Or(tables.ppulut1[s.ca0], tables.ppulut2[s.ca1]);
      PixelData(s);
      OrByte(s.ca0, s.ca1);
      var J := Or(s.ca0, s.ca1);
      if J != 0 {
        if note {
          sphitx := s.x;
          sphitdata := if s.Flipped() then Mirrored(J) else J;
        }
        PaintSprite(pal, gray, s, pixdata, J);
      } else {
        PaintTransparent(pal, gray, sprlinebuf[..], s);
      }
    }

    /** `RefreshSprites`. */
    method RefreshSprites(pal: seq<Byte>, gray: bool, sprites: seq<Sprite>, hit: bool)
      requires Valid() && Palette(pal) && numsprites == |sprites|
      modifies this, sprlinebuf
      ensures sprites == [] ==> !spork && sprlinebuf[..] == old(sprlinebuf[..])
      ensures sprites != [] ==> spork && !SpriteBlurp && PaintedFromBlank(pal, gray, sprites, sprlinebuf[..])
      ensures sprites != [] && old(SpriteBlurp) && !hit && Or(sprites[0].ca0, sprites[0].ca1) != 0
              ==> sphitx == sprites[0].x && sphitdata == HitData(sprites[0])
    {
      hide Packed, Or, Color, PaintAll, Mirrored, Paint, HitData, Tables.Valid;
      spork := false;
      if numsprites == 0 {
        return;
      }
      Blank();
      ghost var line := sprlinebuf[..];
      numsprites := numsprites - 1;
      PaintLoop(pal, gray, sprites, hit, line);
      assert IsBlank(line);
      SpriteBlurp := false;
      spork := true;
    }

    /** The loop from the last sprite to the first. */
    method PaintLoop(pal: seq<Byte>, gray: bool, sprites: seq<Sprite>, hit: bool, ghost line: seq<Byte>)
      requires Valid() && Palette(pal) && numsprites + 1 == |sprites| && line == sprlinebuf[..]
      modifies sprlinebuf, this`sphitx, this`sphitdata
      ensures sprlinebuf[..] == PaintAll(pal, gray, line, sprites)
      ensures SpriteBlurp && !hit && Or(sprites[0].ca0, sprites[0].ca1) != 0
              ==> sphitx == sprites[0].x && sphitdata == HitData(sprites[0])
    {
      hide Packed, Or, Color, PaintAll, PaintFrom, Mirrored, Paint, HitData, Tables.Valid;
      var n: int := numsprites;
      PaintNothing(pal, gray, line, sprites);
      while n >= 0
        invariant -1 <= n < |sprites|
        invariant sprlinebuf[..] == PaintFrom(pal, gray, line, sprites, n + 1)
        invariant n < 0 && SpriteBlurp && !hit && Or(sprites[0].ca0, sprites[0].ca1) != 0
                  ==> sphitx == sprites[0].x && sphitdata == HitData(sprites[0])
      {
        PaintOne(pal, gray, line, sprites, n);
        RefreshSprite(pal, gray, sprites[n], n == 0 && SpriteBlurp && !hit);
        n := n - 1;
      }
    }

    /** The `memset`. */
    method Blank()
      requires sprlinebuf.Length == LINE
      modifies sprlinebuf
      ensures forall i :: 0 <= i < 256 ==> sprlinebuf[i] == 0x80
    {
      forall i | 0 <= i < 256 {
        sprlinebuf[i] := 0x80;
      }
    }

    /** `CopySprites`. */
    method CopySprites(target: array<Byte>, wanted: bool)
      requires Valid() && target.Length == 256 && target != sprlinebuf
      modifies this`spork, target
      ensures !spork
      ensures forall i :: 0 <= i < 256 ==>
                target[i] == if old(spork) && wanted then Shown(sprlinebuf[i], old(target[i])) else old(target[i])
    {
      if !spork {
        return;
      }
      spork := false;
      if !wanted {
        return;
      }
      var i := 0;
      while i < 256
        invariant i <= 256
        invariant forall k :: 0 <= k < 256 ==> target[k] == if k < i then Shown(sprlinebuf[k], old(target[k])) else old(target[k])
        modifies target
      {
        var t := sprlinebuf[i];
        if t / 0x80 % 2 == 0 {
          if t / 0x40 % 2 == 0 || target[i] / 0x40 % 2 == 1 {
            target[i] := t;
          }
        }
        i := i + 1;
      }
    }
  }

  /** The line is a painting that started with 256 transparent places. */
  ghost predicate PaintedFromBlank(pal: seq<Byte>, gray: bool, sprites: seq<Sprite>, result: seq<Byte>)
    requires Palette(pal)
  {
    exists line: seq<Byte> :: IsBlank(line) && result == PaintAll(pal, gray, line, sprites)
  }

  predicate IsBlank(line: seq<Byte>) {
    |line| == LINE && forall i :: 0 <= i < 256 ==> line[i] == 0x80
  }

  /** After `k` columns, whether place `i` has been painted. */
  predicate Painted(s: Sprite, k: nat, i: int) {
    s.Covers(i) && (if s.Flipped() then s.x + 7 - i < k else i - s.x < k)
  }

  /** The next column to be painted, and what it holds. */
  lemma AtColumn(s: Sprite, k: nat)
    requires k < 8
    ensures var at := s.x + (if s.Flipped() then 7 - k else k);
            && s.At(at) == s.Column(k)
            && forall i: int :: Painted(s, k + 1, i) <==> Painted(s, k, i) || (i == at && s.Covers(i))
  {
    hide Bit;
  }

  lemma OrByte(x: Byte, y: Byte)
    ensures Or(x, y) < 0x100
  {
    WidthPowers();
    OrBound(x, y, 8);
  }

  /** The line when the sprites from number `n` on have been painted. */
  function PaintFrom(pal: seq<Byte>, gray: bool, line: seq<Byte>, sprites: seq<Sprite>, n: nat): (r: seq<Byte>)
    requires Palette(pal) && |line| == LINE && n <= |sprites|
    ensures |r| == LINE
  {
    PaintAll(pal, gray, line, sprites[n..])
  }

  lemma PaintNothing(pal: seq<Byte>, gray: bool, line: seq<Byte>, sprites: seq<Sprite>)
    requires Palette(pal) && |line| == LINE
    ensures PaintFrom(pal, gray, line, sprites, |sprites|) == line
    ensures PaintFrom(pal, gray, line, sprites, 0) == PaintAll(pal, gray, line, sprites)
  {
    assert sprites[0..] == sprites;
  }

  lemma PaintOne(pal: seq<Byte>, gray: bool, line: seq<Byte>, sprites: seq<Sprite>, n: nat)
    requires Palette(pal) && |line| == LINE && n < |sprites|
    ensures PaintFrom(pal, gray, line, sprites, n) == Paint(pal, gray, PaintFrom(pal, gray, line, sprites, n + 1), sprites[n])
  {
    hide Paint;
    assert sprites[n..][1..] == sprites[n + 1..];
  }

  lemma PaintTransparent(pal: seq<Byte>, gray: bool, line: seq<Byte>, s: Sprite)
    requires Palette(pal) && |line| == LINE && Or(s.ca0, s.ca1) == 0
    ensures Paint(pal, gray, line, s) == line
  {
    hide Or, Color, Sprite.Covers;
    forall i | 0 <= i < LINE
      ensures !s.Covers(i)
    {
      Transparent(s, i);
    }
  }

  // ----- the hit of the first sprite -----

  /** The mask that is kept for the hit test: its highest bit belongs to the leftmost pixel. */
  function HitData(s: Sprite): Byte {
    OrByte(s.ca0, s.ca1);
    if s.Flipped() then Mirrored(Or(s.ca0, s.ca1)) else Or(s.ca0, s.ca1)
  }

  /** The mask has a bit exactly where the sprite is not transparent. */
  lemma HitDataMeaning(s: Sprite, k: nat)
    requires k < 8
    ensures Bit(HitData(s), 7 - k) == if s.Covers(s.x + k) then 1 else 0
  {
    hide Or, Mirrored, Bit;
    OrByte(s.ca0, s.ca1);
    Opaque(s, k);
    Opaque(s, 7 - k);
    MirroredBit(Or(s.ca0, s.ca1), 7 - k);
  }

  /** A byte from its bits, the lowest first. */
  function FromBits(b: seq<nat>): nat
    requires |b| == 8
  {
    b[0] + 2 * (b[1] + 2 * (b[2] + 2 * (b[3] + 2 * (b[4] + 2 * (b[5] + 2 * (b[6] + 2 * b[7]))))))
  }

  lemma BitOfBits(b: seq<nat>, k: nat)
    requires |b| == 8 && k < 8 && forall i :: 0 <= i < 8 ==> b[i] < 2
    ensures Bit(FromBits(b), k) == b[k]
  {
    hide Bit;
    var x6 := b[6] + 2 * b[7];
    var x5 := b[5] + 2 * x6;
    var x4 := b[4] + 2 * x5;
    var x3 := b[3] + 2 * x4;
    var x2 := b[2] + 2 * x3;
    var x1 := b[1] + 2 * x2;
    BitBelow(b[0], x1, k);
    BitBelow(b[1], x2, k - 1);
    BitBelow(b[2], x3, k - 2);
    BitBelow(b[3], x4, k - 3);
    BitBelow(b[4], x5, k - 4);
    BitBelow(b[5], x6, k - 5);
    BitBelow(b[6], b[7], k - 6);
    BitBelow(b[7], 0, k - 7);
  }

  lemma BitBelow(b: nat, x: nat, k: int)
    requires b < 2
    ensures k > 0 ==> Bit(b + 2 * x, k) == Bit(x, k - 1)
    ensures k == 0 ==> Bit(b + 2 * x, 0) == b
  {
    assert (b + 2 * x) / 2 == x;
  }

  function BitsOf(x: Byte): (b: seq<nat>)
    ensures |b| == 8
  {
    [x % 2, x / 2 % 2, x / 4 % 2, x / 8 % 2, x / 16 % 2, x / 32 % 2, x / 64 % 2, x / 128]
  }

  lemma BitsMakeByte(x: Byte)
    ensures FromBits(BitsOf(x)) == x
  {
    assert x / 2 / 2 == x / 4;
    assert x / 4 / 2 == x / 8;
    assert x / 8 / 2 == x / 16;
    assert x / 16 / 2 == x / 32;
    assert x / 32 / 2 == x / 64;
    assert x / 64 / 2 == x / 128;
  }

  lemma MirroredBit(x: Byte, k: nat)
    requires k < 8
    ensures Bit(Mirrored(x), k) == Bit(x, 7 - k)
  {
    var b := BitsOf(x);
    var r := [b[7], b[6], b[5], b[4], b[3], b[2], b[1], b[0]];
    BitsMakeByte(x);
    MirroredIs(x, b, r);
    hide Bit, FromBits, Mirrored;
    BitOfBits(b, 7 - k);
    BitOfBits(r, k);
  }

  lemma MirroredIs(x: Byte, b: seq<nat>, r: seq<nat>)
    requires b == BitsOf(x) && r == [b[7], b[6], b[5], b[4], b[3], b[2], b[1], b[0]]
    ensures Mirrored(x) == FromBits(r)
    ensures forall i :: 0 <= i < 8 ==> b[i] < 2 && r[i] < 2
  {
  }
}
