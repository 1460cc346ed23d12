/**
 Printing and reading numbers (abstract-machine/klib/src/stdio.c, lines 20-105, and
 abstract-machine/klib/src/stdlib.c, lines 22-30).
 */
module Decimal {
  const W32: nat := 0x1_0000_0000

  type Uint32 = v: nat | v < W32

  type Int32 = v: int | -0x8000_0000 <= v < 0x8000_0000

  const INT_MIN: int := -0x8000_0000

  const NUM_CHAR: string := "0123456789ABCDEF"

  /** The table of digits. */
  function DigitOf(k: nat): char
    requires k < 16
  {
    NUM_CHAR[k]
  }

  function Weight(c: char): nat
    requires IsDigit(c)
  {
    c as int - '0' as int
  }

  // ----- numerals -----

  /** The numeral of `v`: the table is only looked up inside. */
  function Numeral(v: nat, base: nat): (s: string)
    requires base in {10, 16}
    ensures |s| > 0
  {
    if v < base then [DigitOf(v)]
    else
      Shrinks(v, base);
      Numeral(v / base, base) + [DigitOf(v % base)]
  }

  lemma Shrinks(v: nat, base: nat)
    requires base in {10, 16}
    ensures v / base <= v && (v >= base ==> 0 < v / base < v)
    ensures v / base == 0 <==> v < base
  {
    if base == 10 {
    } else {
    }
  }

  predicate IsDigit(c: char) {
    '0' <= c <= '9'
  }

  /** The digits at the front of a text. */
  function Leading(s: string): (d: string)
    ensures |d| <= |s| && d == s[..|d|]
  {
    if s == "" || !IsDigit(s[0]) then "" else [s[0]] + Leading(s[1..])
  }

  /** The number that a string of digits stands for. */
  function ValueOf(d: string): nat
    requires forall i :: 0 <= i < |d| ==> IsDigit(d[i])
  {
    if d == "" then 0 else 10 * ValueOf(d[..|d| - 1]) + Weight(d[|d| - 1])
  }

  predicate AllDigits(s: string) {
    forall i :: 0 <= i < |s| ==> IsDigit(s[i])
  }

  /** Digits without a leading zero, or the one digit 0. */
  predicate Canonical(s: string) {
    s != "" && AllDigits(s) && (s[0] == '0' ==> s == "0")
  }

  lemma DigitChar(k: nat)
    requires k < 10
    ensures IsDigit(DigitOf(k)) && Weight(DigitOf(k)) == k && (DigitOf(k) == '0' <==> k == 0)
  {
    assert k == 0 || k == 1 || k == 2 || k == 3 || k == 4 || k == 5 || k == 6 || k == 7 || k == 8 || k == 9;
  }

  lemma ValueAppend(d: string, c: char)
    requires AllDigits(d) && IsDigit(c)
    ensures ValueOf(d + [c]) == 10 * ValueOf(d) + Weight(c)
  {
    assert (d + [c])[..|d|] == d;
  }

  /** The numeral is the canonical one, and stands for the number. */
  lemma {:induction false} NumeralIsCanonical(v: nat)
    ensures Canonical(Numeral(v, 10)) && ValueOf(Numeral(v, 10)) == v
    ensures Numeral(v, 10)[0] == '0' <==> v == 0
  {
    hide ValueOf, DigitOf;
    if v < 10 {
      DigitChar(v);
      ValueAppend("", DigitOf(v));
      assert ValueOf("") == 0 by { NothingIsZero(); }
      assert "" + [DigitOf(v)] == [DigitOf(v)];
    } else {
      NumeralIsCanonical(v / 10);
      DigitChar(v % 10);
      ValueAppend(Numeral(v / 10, 10), DigitOf(v % 10));
    }
  }

  lemma NothingIsZero()
    ensures ValueOf("") == 0
  {
  }

  /** There is only one canonical numeral for each number. */
  lemma {:induction false} CanonicalIsUnique(s: string)
    requires Canonical(s)
    ensures s == Numeral(ValueOf(s), 10)
    decreases |s|
  {
    hide ValueOf, DigitOf, Weight;
    var n := |s| - 1;
    CharOfDigit(s[n]);
    assert s == s[..n] + [s[n]];
    ValueAppend(s[..n], s[n]);
    NothingIsZero();
    if n == 0 {
      assert s[..0] == "";
      WeightBound(s[0]);
    } else {
      CanonicalIsUnique(s[..n]);
      NumeralIsCanonical(ValueOf(s[..n]));
      ZeroNumeral();
      WeightBound(s[n]);
      TenTimes(ValueOf(s[..n]), Weight(s[n]));
    }
  }

  lemma WeightBound(c: char)
    requires IsDigit(c)
    ensures Weight(c) < 10
  {
  }

  lemma ZeroNumeral()
    ensures Numeral(0, 10) == "0"
  {
  }

  lemma TenTimes(q: nat, k: nat)
    requires k < 10
    ensures (10 * q + k) / 10 == q && (10 * q + k) % 10 == k
  {
  }

  lemma CharOfDigit(c: char)
    requires IsDigit(c)
    ensures DigitOf(Weight(c)) == c
  {
  }

  // ----- reading -----

  /** 32-bit two's complement. */
  function Signed(x: int): Int32 {
    (x + 0x8000_0000) % W32 - 0x8000_0000
  }

  function SkipSpaces(s: string): (r: string)
    ensures r == "" || r[0] != ' '
  {
    if s != "" && s[0] == ' ' then SkipSpaces(s[1..]) else s
  }

  /** `atoi`: the text ends where the sequence ends. */
  method Atoi(nptr: string) returns (x: Int32)
    ensures AllDigits(Leading(SkipSpaces(nptr)))
    ensures x == Signed(ValueOf(Leading(SkipSpaces(nptr))))
  {
    hide ValueOf;
    var s := nptr;
    while s != "" && s[0] == ' '
      invariant SkipSpaces(s) == SkipSpaces(nptr)
      decreases |s|
    {
      s := s[1..];
    }
    ghost var digits := Leading(s);
    LeadingDigits(s);
    x := 0;
    var i := 0;
    NothingIsZero();
    while i < |s| && IsDigit(s[i])
      invariant i <= |digits| && x == Signed(ValueOf(digits[..i]))
      invariant forall k :: 0 <= k < i ==> IsDigit(s[k])
    {
      LeadingAt(s, i);
      ValueAppend(digits[..i], s[i]);
      assert digits[..i + 1] == digits[..i] + [s[i]];
      SignedStep(ValueOf(digits[..i]), Weight(s[i]));
      x := Signed(x as int * 10 + s[i] as int - '0' as int);
      i := i + 1;
    }
    LeadingEnds(s, i);
    assert digits[..i] == digits;
  }

  lemma SignedStep(v: int, k: int)
    ensures Signed(Signed(v) * 10 + k) == Signed(10 * v + k)
  {
    var q := (v + 0x8000_0000) / W32;
    assert Signed(v) == v - q * W32;
    SignedShift(10 * v + k, -10 * q);
  }

  lemma SignedShift(x: int, q: int)
    ensures Signed(x + q * W32) == Signed(x)
  {
  }

  lemma {:induction false} LeadingDigits(s: string)
    ensures AllDigits(Leading(s))
  {
    if s != "" && IsDigit(s[0]) {
      LeadingDigits(s[1..]);
    }
  }

  lemma {:induction false} LeadingAt(s: string, i: nat)
    requires i < |s| && forall k :: 0 <= k <= i ==> IsDigit(s[k])
    ensures i < |Leading(s)| && Leading(s)[i] == s[i]
    decreases i
  {
    if i > 0 {
      LeadingAt(s[1..], i - 1);
    }
  }

  lemma {:induction false} LeadingEnds(s: string, i: nat)
    requires i <= |s| && (forall k :: 0 <= k < i ==> IsDigit(s[k])) && (i < |s| ==> !IsDigit(s[i]))
    ensures |Leading(s)| == i
    decreases i
  {
    if i > 0 {
      LeadingEnds(s[1..], i - 1);
    }
  }

  // ----- printing -----

  /** What `%d` prints. */
  function PrintedInt(v: Int32): string
    requires v != INT_MIN
  {
    if v < 0 then "-" + Numeral(-(v as int), 10) else Numeral(v, 10)
  }

  /** The remainder of C, with the sign of the dividend. */
  function CRemainder(x: int, y: int): int
    requires y > 0
  {
    if x >= 0 then x % y else -((-x) % y)
  }

  /**
   `%d` turns a negative number around with `0 - val`, in 32 bits.  The digits then index the table from
   its start, except for the least number, which stays negative: its first index is -8.
   */
  lemma LeastNumberFails(v: Int32)
    requires v < 0
    ensures var val := Signed(0 - v);
            && (CRemainder(val, 10) < 0 <==> v == INT_MIN)
            && (v != INT_MIN ==> val == -(v as int))
    ensures CRemainder(Signed(0 - INT_MIN), 10) == -8
  {
    assert Signed(0 - INT_MIN) == INT_MIN;
    if v != INT_MIN {
      assert Signed(0 - v) == -(v as int);
    }
  }

  /** The arguments, by their types. */
  datatype Arg = Int(i: Int32) | Unsigned(u: Uint32) | Char(c: char) | Text(s: string)

  /** How a call ends: with a text, or in one of the ways that C leaves undefined. */
  datatype Outcome = Printed(text: string) | PastEnd | WrongArgument | NegativeIndex

  /** The characters that ask for an argument. */
  predicate Asks(c: char) {
    c in "ducsp"
  }

  predicate Fits(c: char, a: Arg) {
    match a
    case Int(_) => c == 'd'
    case Unsigned(_) => c == 'u' || c == 'p'
    case Char(_) => c == 'c'
    case Text(_) => c == 's'
  }

  /** The text of one argument; the least number has none. */
  function Piece(c: char, a: Arg): string
    requires Fits(c, a) && a != Int(INT_MIN)
  {
    match a
    case Int(i) => PrintedInt(i)
    case Unsigned(u) => if c == 'u' then Numeral(u, 10) else "0x" + DigitsOf(u, 16)
    case Char(ch) => [ch]
    case Text(s) => s
  }

  /** One conversion. */
  function Conversion(c: char, args: seq<Arg>): Outcome {
    if !Asks(c) then Printed("")
    else if args == [] || !Fits(c, args[0]) then WrongArgument
    else if args[0] == Int(INT_MIN) then NegativeIndex
    else Printed(Piece(c, args[0]))
  }

  function LeftOver(c: char, args: seq<Arg>): seq<Arg> {
    if Asks(c) && args != [] then args[1..] else args
  }

  function Prepend(s: string, r: Outcome): Outcome {
    match r
    case Printed(t) => Printed(s + t)
    case _ => r
  }

  /**
   What comes of a format: the length is looked at before each character of the format, and not inside a
   conversion.  Behind a `%` that is the last character the format is read on past its end.
   */
  function Formatted(fmt: string, args: seq<Arg>, len: nat, n: nat): Outcome
    decreases |fmt|
  {
    if fmt == "" || len >= n then Printed("")
    else if fmt[0] != '%' then Prepend([fmt[0]], Formatted(fmt[1..], args, len + 1, n))
    else if |fmt| == 1 then PastEnd
    else
      match Conversion(fmt[1], args)
      case Printed(piece) => Prepend(piece, Formatted(fmt[2..], LeftOver(fmt[1], args), len + |piece|, n))
      case failure => failure
  }

  // ----- which formats are read past their end -----

  /** The scan that skips two characters at each `%` finds a `%` with nothing behind it. */
  predicate LonePercent(fmt: string)
    decreases |fmt|
  {
    if fmt == "" then false
    else if fmt[0] != '%' then LonePercent(fmt[1..])
    else if |fmt| == 1 then true
    else LonePercent(fmt[2..])
  }

  /** The arguments are of the types that the format asks for, and none is the least number. */
  predicate WellTyped(fmt: string, args: seq<Arg>)
    decreases |fmt|
  {
    if fmt == "" then true
    else if fmt[0] != '%' then WellTyped(fmt[1..], args)
    else if |fmt| == 1 then true
    else Conversion(fmt[1], args).Printed? && WellTyped(fmt[2..], LeftOver(fmt[1], args))
  }

  /** The text without a limit. */
  function Whole(fmt: string, args: seq<Arg>): string
    requires WellTyped(fmt, args)
    decreases |fmt|
  {
    if fmt == "" then ""
    else if fmt[0] != '%' then [fmt[0]] + Whole(fmt[1..], args)
    else if |fmt| == 1 then ""
    else Conversion(fmt[1], args).text + Whole(fmt[2..], LeftOver(fmt[1], args))
  }

  /**
   With arguments of the right types a format is read past its end if and only if it ends in a lone `%`
   and the limit is not reached before that.  Otherwise a text comes out, the whole one or, where the
   limit cuts it off, a beginning of it that reaches the limit.
   */
  lemma {:induction false} PastEndExactlyWhen(fmt: string, args: seq<Arg>, len: nat, n: nat)
    requires WellTyped(fmt, args)
    ensures var r := Formatted(fmt, args, len, n);
            && (r == PastEnd <==> LonePercent(fmt) && len + |Whole(fmt, args)| < n)
            && (r != PastEnd ==> r.Printed? && r.text <= Whole(fmt, args))
            && (r.Printed? && len + |r.text| < n ==> r.text == Whole(fmt, args))
    decreases |fmt|
  {
    hide Conversion;
    if fmt == "" || len >= n {
    } else if fmt[0] != '%' {
      PastEndExactlyWhen(fmt[1..], args, len + 1, n);
    } else if |fmt| > 1 {
      PastEndExactlyWhen(fmt[2..], LeftOver(fmt[1], args), len + |Conversion(fmt[1], args).text|, n);
    }
  }

  /** A format of a single `%` is read past its end; two of them print nothing. */
  lemma OnePercent(n: nat)
    requires n > 0
    ensures Formatted("%", [], 0, n) == PastEnd && LonePercent("%")
    ensures Formatted("%%", [], 0, n) == Printed("") && !LonePercent("%%")
  {
    assert "%%"[2..] == "";
  }

  /**
   The loops of one conversion: digits from the lowest into a buffer, and the buffer backwards into the
   output.  The buffer is large enough.
   */
  method Digits(v: Uint32, base: nat) returns (s: string)
    requires base in {10, 16}
    ensures s == DigitsOf(v, base)
  {
    hide DigitOf, DigitsOf, Room;
    var buf := new char[128](_ => ' ');
    var n, val: nat := 0, v;
    ghost var low := "";
    RoomBound(v);
    assert DigitsOf(v, base) + "" == DigitsOf(v, base);
    while val != 0
      invariant n == |low| && val <= v
      invariant n + Room(val) <= 10
      invariant forall i :: 0 <= i < n ==> buf[i] == low[n - 1 - i]
      invariant DigitsOf(val, base) + low == DigitsOf(v, base)
      decreases val
    {
      DigitLoop(val, base, low);
      RoomShrinks(val, base);
      buf[n] := DigitOf(val % base);
      low := [DigitOf(val % base)] + low;
      val, n := val / base, n + 1;
    }
    NoDigits(base, low);
    s := Backwards(buf, n, low);
  }

  /** The digits of a number, none for zero. */
  function DigitsOf(v: nat, base: nat): string
    requires base in {10, 16}
  {
    if v == 0 then "" else Numeral(v, base)
  }

  lemma NoDigits(base: nat, low: string)
    requires base in {10, 16}
    ensures DigitsOf(0, base) + low == low
  {
  }

  /** One turn moves the last digit over. */
  lemma DigitLoop(val: nat, base: nat, low: string)
    requires base in {10, 16} && val > 0
    ensures val / base < val && 0 <= val % base < base
    ensures DigitsOf(val / base, base) + ([DigitOf(val % base)] + low) == DigitsOf(val, base) + low
  {
    hide DigitOf, DigitsOf;
    var c := DigitOf(val % base);
    NumeralStep(val, base);
    assert DigitsOf(val / base, base) + ([c] + low) == DigitsOf(val / base, base) + [c] + low;
  }

  /** The buffer is copied from its end. */
  method Backwards(buf: array<char>, n: nat, ghost low: string) returns (s: string)
    requires n <= buf.Length && |low| == n && forall i :: 0 <= i < n ==> buf[i] == low[n - 1 - i]
    ensures s == low
  {
    s := "";
    var i: int := n - 1;
    while i >= 0
      invariant -1 <= i < n && s == low[..n - 1 - i]
    {
      s := s + [buf[i]];
      i := i - 1;
    }
  }

  lemma NumeralStep(v: nat, base: nat)
    requires base in {10, 16} && v > 0
    ensures v / base < v && DigitsOf(v, base) == DigitsOf(v / base, base) + [DigitOf(v % base)]
  {
    hide DigitOf;
    Shrinks(v, base);
    if v < base {
      SmallRemainder(v, base);
    }
  }

  lemma SmallRemainder(v: nat, base: nat)
    requires v < base
    ensures v % base == v
  {
  }

  /** The number of decimal digits. */
  function Room(v: nat): nat {
    if v == 0 then 0 else 1 + Room(v / 10)
  }

  lemma {:induction false} RoomMonotone(a: nat, b: nat)
    requires a <= b
    ensures Room(a) <= Room(b)
    decreases b
  {
    if a > 0 {
      RoomMonotone(a / 10, b / 10);
    }
  }

  function Ten(k: nat): nat {
    if k == 0 then 1 else 10 * Ten(k - 1)
  }

  lemma {:induction false} RoomAtMost(v: nat, k: nat)
    requires v < Ten(k)
    ensures Room(v) <= k
  {
    if v > 0 {
      RoomAtMost(v / 10, k - 1);
    }
  }

  lemma RoomBound(v: Uint32)
    ensures Room(v) <= 10
  {
    assert Ten(5) == 100000 && Ten(10) == 100000 * Ten(5);
    RoomAtMost(v, 10);
  }

  lemma FewerDigits(v: nat, base: nat)
    requires base in {10, 16}
    ensures v / base <= v / 10
  {
  }

  lemma RoomShrinks(v: nat, base: nat)
    requires base in {10, 16} && v > 0
    ensures Room(v / base) + 1 <= Room(v)
  {
    FewerDigits(v, base);
    RoomMonotone(v / base, v / 10);
  }

  /** The digits of `%u`, and of `%d` behind the sign. */
  method Number(v: Uint32) returns (s: string)
    ensures s == Numeral(v, 10)
  {
    hide Numeral;
    s := "";
    if v == 0 {
      s := "0";
      ZeroNumeral();
    }
    var digits := Digits(v, 10);
    assert "" + digits == digits && "0" + "" == "0";
    s := s + digits;
  }

  /** One conversion of `vsnprintf`. */
  method Convert(c: char, args: seq<Arg>) returns (r: Outcome, rest: seq<Arg>)
    ensures r == Conversion(c, args)
    ensures r.Printed? ==> rest == LeftOver(c, args)
  {
    hide Numeral, DigitsOf;
    rest := args;
    if !Asks(c) {
      return Printed(""), rest;
    }
    if args == [] || !Fits(c, args[0]) {
      return WrongArgument, rest;
    }
    rest := args[1..];
    match args[0] {
      case Int(i) =>
        var sign, val := "", i;
        if val < 0 {
          sign := "-";
          LeastNumberFails(val);
          val := Signed(0 - val as int);
        }
        if val < 0 {
          return NegativeIndex, rest;
        }
        var digits := Number(val);
        assert "" + digits == digits;
        r := Printed(sign + digits);
      case Unsigned(u) =>
        if c == 'u' {
          var digits := Number(u);
          r := Printed(digits);
        } else {
          var digits := Digits(u, 16);
          r := Printed("0x" + digits);
        }
      case Char(ch) =>
        r := Printed([ch]);
      case Text(s) =>
        r := Printed(s);
    }
  }

  /** `vsnprintf`; the output is not bounded by the caller's buffer. */
  method Vsnprintf(fmt: string, n: nat, args: seq<Arg>) returns (r: Outcome)
    ensures r == Formatted(fmt, args, 0, n)
  {
    hide Conversion, LeftOver;
    var out := "";
    var f, left := fmt, args;
    PrependNothing(Formatted(fmt, args, 0, n));
    while f != "" && |out| < n
      invariant Prepend(out, Formatted(f, left, |out|, n)) == Formatted(fmt, args, 0, n)
      decreases |f|
    {
      ghost var before := out;
      if f[0] == '%' {
        if |f| == 1 {
          return PastEnd;
        }
        var piece: Outcome;
        piece, left := Convert(f[1], left);
        if !piece.Printed? {
          return piece;
        }
        out := out + piece.text;
        PrependMore(before, piece.text, Formatted(f[2..], left, |out|, n));
        f := f[2..];
      } else {
        out := out + [f[0]];
        PrependMore(before, [f[0]], Formatted(f[1..], left, |out|, n));
        f := f[1..];
      }
    }
    assert out + "" == out;
    r := Printed(out);
  }

  lemma PrependNothing(r: Outcome)
    ensures Prepend("", r) == r
  {
    if r.Printed? {
      assert "" + r.text == r.text;
    }
  }

  lemma PrependMore(s: string, piece: string, r: Outcome)
    ensures Prepend(s, Prepend(piece, r)) == Prepend(s + piece, r)
  {
    if r.Printed? {
      assert s + (piece + r.text) == s + piece + r.text;
    }
  }

  // ----- printing and reading again -----

  predicate EndsNumber(rest: string) {
    rest != "" ==> !IsDigit(rest[0])
  }

  /** What `atoi` makes of a text. */
  function Read(s: string): Int32 {
    LeadingDigits(SkipSpaces(s));
    Signed(ValueOf(Leading(SkipSpaces(s))))
  }

  lemma ReadsDigits(d: string, rest: string)
    requires d != "" && AllDigits(d) && EndsNumber(rest)
    ensures Read(d + rest) == Signed(ValueOf(d))
  {
    hide ValueOf;
    assert SkipSpaces(d + rest) == d + rest;
    LeadingEnds(d + rest, |d|);
    assert (d + rest)[..|d|] == d;
  }

  /** What `%u` prints, whatever follows, `atoi` reads as the same 32 bits. */
  lemma UnsignedRoundTrip(v: Uint32, rest: string)
    requires EndsNumber(rest)
    ensures Read(Numeral(v, 10) + rest) == Signed(v)
    ensures v < 0x8000_0000 ==> Read(Numeral(v, 10) + rest) == v
  {
    hide Numeral, ValueOf;
    NumeralIsCanonical(v);
    ReadsDigits(Numeral(v, 10), rest);
  }

  /** `atoi` knows no sign: it gives back what `%d` printed exactly for numbers that are not negative. */
  lemma IntRoundTrip(v: Int32, rest: string)
    requires v != INT_MIN && EndsNumber(rest)
    ensures Read(PrintedInt(v) + rest) == if v >= 0 then v else 0
  {
    hide Numeral;
    if v >= 0 {
      UnsignedRoundTrip(v, rest);
    } else {
      NothingIsZero();
      var s := PrintedInt(v) + rest;
      assert s[0] == '-' && SkipSpaces(s) == s && Leading(s) == "";
    }
  }

  /** What `%d` prints: the canonical numeral of the magnitude, behind a minus sign if negative. */
  lemma PrintedIntIsCanonical(v: Int32)
    requires v != INT_MIN
    ensures var s := PrintedInt(v);
            if v < 0 then s[0] == '-' && Canonical(s[1..]) && ValueOf(s[1..]) == -(v as int)
            else Canonical(s) && ValueOf(s) == v
  {
    hide Numeral, ValueOf;
    if v < 0 {
      NumeralIsCanonical(-(v as int));
      assert PrintedInt(v)[1..] == Numeral(-(v as int), 10);
    } else {
      NumeralIsCanonical(v);
    }
  }

  // ----- what each conversion prints -----

  predicate IsHexDigit(c: char) {
    IsDigit(c) || 'A' <= c <= 'F'
  }

  function HexWeight(c: char): nat
    requires IsHexDigit(c)
  {
    if IsDigit(c) then Weight(c) else 10 + (c as int - 'A' as int)
  }

  /** The number that a string of hexadecimal digits stands for. */
  function HexValue(d: string): nat
    requires forall i :: 0 <= i < |d| ==> IsHexDigit(d[i])
  {
    if d == "" then 0 else 16 * HexValue(d[..|d| - 1]) + HexWeight(d[|d| - 1])
  }

  lemma HexChar(k: nat)
    requires k < 16
    ensures IsHexDigit(DigitOf(k)) && HexWeight(DigitOf(k)) == k && (DigitOf(k) == '0' <==> k == 0)
  {
    if k < 10 {
      DigitChar(k);
    } else {
      assert k == 10 || k == 11 || k == 12 || k == 13 || k == 14 || k == 15;
    }
  }

  /** The digits of `%p`: they stand for the number and do not begin with a zero; zero has none at all. */
  lemma {:induction false} HexDigits(v: nat)
    ensures var s := DigitsOf(v, 16);
            (forall i :: 0 <= i < |s| ==> IsHexDigit(s[i])) && HexValue(s) == v && (s != "" ==> s[0] != '0')
  {
    hide DigitOf, HexWeight, DigitsOf, IsHexDigit;
    if v == 0 {
      NoDigits(16, "");
      assert DigitsOf(0, 16) + "" == DigitsOf(0, 16);
    } else {
      NumeralStep(v, 16);
      HexDigits(v / 16);
      HexChar(v % 16);
      var s := DigitsOf(v / 16, 16);
      assert (s + [DigitOf(v % 16)])[..|s|] == s;
      if s == "" {
        assert HexValue("") == 0;
      }
    }
  }

  /** What every conversion prints for its argument. */
  lemma PieceMeaning(c: char, a: Arg)
    requires Fits(c, a) && a != Int(INT_MIN)
    ensures var s := Piece(c, a);
            match a
            case Int(i) =>
              if i < 0 then s != "" && s[0] == '-' && Canonical(s[1..]) && ValueOf(s[1..]) == -(i as int)
              else Canonical(s) && ValueOf(s) == i
            case Unsigned(u) =>
              if c == 'u' then Canonical(s) && ValueOf(s) == u
              else "0x" <= s && (forall i :: 2 <= i < |s| ==> IsHexDigit(s[i])) && HexValue(s[2..]) == u && (|s| > 2 ==> s[2] != '0')
            case Char(ch) => s == [ch]
            case Text(t) => s == t
  {
    hide Numeral, DigitsOf, ValueOf, HexValue, Canonical, IsHexDigit;
    match a {
      case Int(i) => PrintedIntIsCanonical(i);
      case Unsigned(u) =>
        NumeralIsCanonical(u);
        HexDigits(u);
        assert ("0x" + DigitsOf(u, 16))[2..] == DigitsOf(u, 16);
      case _ =>
    }
  }
}
