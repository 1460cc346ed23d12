/**
 The bank tables (fceux-am/src/cart.cpp, lines 64-252).

 The processor's address space is cut into pages of 2K, and each page holds a pointer that is biased by
 the address of the page.  The specification keeps no table: a read looks for the last call that covered
 the address and takes the byte which that call says, with the number of the bank taken modulo the size
 of the chip.
 */
module BankTable {
  import opened Bits

  type Byte = b: nat | b < 0x100

  type Uint32 = v: nat | v < 0x1_0000_0000

  const PAGE: nat := 0x800

  /** A chip of 2 to the power `e` bytes, if there is one, and whether it can be written. */
  datatype Chip = Chip(present: bool, e: nat, ram: bool) {
    /** At least 2K. */
    predicate Ok() {
      11 <= e <= 31
    }

    function Size(): nat {
      Pow2(e)
    }
  }

  /** What `SetupCartPRGMapping` computes for units of 2 to the power `k` bytes, as a 32-bit number. */
  function Mask(c: Chip, k: nat): Uint32 {
    (Shr(c.Size(), k) - 1) % 0x1_0000_0000
  }

  /** A pointer into chip `r`, biased so that it is indexed with the whole address. */
  datatype Pointer = Null | Into(r: nat, bias: int)

  datatype Page = Page(p: Pointer, ram: bool)

  // ----- the calls, as the program executes them -----

  /** `setpageptr` with a span of `n` pages: `off` is the offset of the bank in the chip. */
  function SetPages(pages: seq<Page>, n: nat, a: nat, chips: seq<Chip>, r: nat, off: nat): (result: seq<Page>)
    requires r < |chips| && a / PAGE + n <= |pages|
    ensures |result| == |pages|
  {
    var entry := if chips[r].present then Page(Into(r, off - a), chips[r].ram) else Page(Null, false);
    seq(|pages|, i requires 0 <= i < |pages| => if a / PAGE <= i < a / PAGE + n then entry else pages[i])
  }

  /** A call: a bank of 2 to the power `k` bytes, number `v` of chip `r`, appears at address `a`. */
  datatype Call = Call(k: nat, r: nat, a: nat, v: Uint32) {
    function Unit(): nat {
      Pow2(k)
    }

    function PageCount(): nat
      requires k >= 11
    {
      Pow2(k - 11)
    }

    predicate Covers(addr: nat) {
      a <= addr < a + Unit()
    }

    /** Banks of 2, 4, 8, 16 and 32K, inside the address space and at page boundaries. */
    predicate Ok(chips: seq<Chip>) {
      11 <= k <= 15 && r < |chips| && chips[r].Ok() && a % PAGE == 0 && a + Unit() <= 0x1_0000
    }
  }

  /** The pages of a small chip, one after the other. */
  function SetSmall(pages: seq<Page>, chips: seq<Chip>, call: Call, x: nat): (result: seq<Page>)
    requires call.Ok(chips) && |pages| == 32 && x <= call.PageCount()
    ensures |result| == 32
  {
    if x == 0 then pages
    else
      PagesFit(call, chips);
      var before := SetSmall(pages, chips, call, x - 1);
      SetPages(before, 1, call.a + (x - 1) * PAGE, chips, call.r, SmallOffset(chips[call.r], call.PageCount(), call.v, x - 1))
  }

  /** The offset of page `x` of a bank, in 32-bit arithmetic. */
  function SmallOffset(c: Chip, pageCount: nat, v: Uint32, x: nat): nat {
    var va := v * pageCount % 0x1_0000_0000;
    And((va + x) % 0x1_0000_0000, Mask(c, 11)) * PAGE % 0x1_0000_0000
  }

  lemma PagesFit(call: Call, chips: seq<Chip>)
    requires call.Ok(chips)
    ensures call.a / PAGE + call.PageCount() <= 32 && call.Unit() == PAGE * call.PageCount()
    ensures forall x: nat :: x < call.PageCount() ==> (call.a + x * PAGE) / PAGE == call.a / PAGE + x
  {
    UnitIs(call.k);
  }

  lemma UnitIs(k: nat)
    requires 11 <= k
    ensures Pow2(k) == PAGE * Pow2(k - 11)
    decreases k
  {
    if k == 11 {
      assert Pow2(8) == 0x100 by { WidthPowers(); }
      assert Pow2(11) == 2 * Pow2(10) && Pow2(10) == 2 * Pow2(9) && Pow2(9) == 2 * Pow2(8);
    } else {
      UnitIs(k - 1);
    }
  }

  /** A bank in one piece. */
  function SetWhole(pages: seq<Page>, chips: seq<Chip>, call: Call): (result: seq<Page>)
    requires call.Ok(chips) && |pages| == 32
    ensures |result| == 32
  {
    PagesFit(call, chips);
    SetPages(pages, call.PageCount(), call.a, chips, call.r,
             And(call.v, Mask(chips[call.r], call.k)) * call.Unit() % 0x1_0000_0000)
  }

  /** `setprg2r` to `setprg32r`: banks of 8K and more have a way out for smaller chips, the others have none. */
  function SetBank(pages: seq<Page>, chips: seq<Chip>, call: Call): (result: seq<Page>)
    requires call.Ok(chips) && |pages| == 32
    ensures |result| == 32
  {
    if call.k < 13 || chips[call.r].Size() >= call.Unit() then
      SetWhole(pages, chips, call)
    else
      SetSmall(pages, chips, call, call.PageCount())
  }

  function Run(pages: seq<Page>, chips: seq<Chip>, calls: seq<Call>): (result: seq<Page>)
    requires |pages| == 32 && forall i :: 0 <= i < |calls| ==> calls[i].Ok(chips)
    ensures |result| == 32
  {
    if calls == [] then pages else SetBank(Run(pages, chips, calls[..|calls| - 1]), chips, calls[|calls| - 1])
  }

  // ----- the specification -----

  /** Where a byte comes from: nowhere, or from a place in a chip; and whether it may be written. */
  datatype Origin = Unmapped | Absent | Place(r: nat, off: int, ram: bool)

  function OriginOf(chips: seq<Chip>, call: Call, addr: nat): Origin
    requires call.Ok(chips) && call.Covers(addr)
  {
    if chips[call.r].present then
      Place(call.r, (call.v * call.Unit() + (addr - call.a)) % chips[call.r].Size(), chips[call.r].ram)
    else Absent
  }

  /** The last call that covered the address decides. */
  function Source(chips: seq<Chip>, calls: seq<Call>, addr: nat): Origin
    requires forall i :: 0 <= i < |calls| ==> calls[i].Ok(chips)
  {
    if calls == [] then Unmapped
    else if calls[|calls| - 1].Covers(addr) then OriginOf(chips, calls[|calls| - 1], addr)
    else Source(chips, calls[..|calls| - 1], addr)
  }

  /** Where the table sends a read of `addr`. */
  function Resolve(page: Page, addr: nat): Origin {
    match page.p
    case Null => Absent
    case Into(r, bias) => Place(r, bias + addr, page.ram)
  }

  // ----- the arithmetic of banks -----

  lemma LowIsMod(x: nat, k: nat)
    ensures Low(x, k) == x % Pow2(k)
  {
    SplitAt(x, k);
    ShlIsMul(Shr(x, k), k);
    DivModUnique(x, Pow2(k), Shr(x, k), Low(x, k));
  }

  /** The mask of a chip that holds whole units takes the number of the bank modulo the number of units. */
  lemma MaskIsMod(c: Chip, k: nat, v: nat)
    requires c.Ok() && k <= c.e
    ensures And(v, Mask(c, k)) == v % Pow2(c.e - k)
  {
    hide And, Low, Shr, Pow2;
    MaskIs(c, k);
    AndMask(v, c.e - k);
    LowIsMod(v, c.e - k);
  }

  lemma MaskIs(c: Chip, k: nat)
    requires c.Ok() && k <= c.e
    ensures Mask(c, k) == Pow2(c.e - k) - 1
  {
    hide Shr, Pow2;
    ShrPower(c.e, k);
    Pow2Monotone(c.e - k, 31);
    assert Pow2(31) == 0x8000_0000 by { WidthPowers(); }
  }

  lemma {:induction false} ShrPower(e: nat, k: nat)
    requires k <= e
    ensures Shr(Pow2(e), k) == Pow2(e - k)
    decreases k
  {
    if k > 0 {
      HalfIs(Pow2(e), Pow2(e - 1), 0);
      ShrPower(e - 1, k - 1);
    }
  }

  /** Taking a bank number modulo the number of banks is taking the offset modulo the size. */
  lemma BankModulo(v: nat, d: nat, m: nat, u: nat)
    requires m > 0 && d < u
    ensures m * u > 0 && v % m * u + d == (v * u + d) % (m * u) && v % m * u + d < m * u
  {
    var q, r := v / m, v % m;
    assert v == q * m + r;
    assert v * u == q * (m * u) + r * u by {
      assert (q * m + r) * u == q * m * u + r * u;
      assert q * m * u == q * (m * u);
    }
    assert r * u <= (m - 1) * u by { MulMonotone(r, m - 1, u); }
    assert (m - 1) * u == m * u - u;
    MulAtLeast(m, u);
    DivModUnique(v * u + d, m * u, q, r * u + d);
  }

  lemma WordSplits(j: nat)
    requires j <= 32
    ensures 0x1_0000_0000 == Pow2(j) * Pow2(32 - j)
  {
    Pow2Add(j, 32 - j);
    ShlIsMul(Pow2(j), 32 - j);
    WidthPowers();
  }

  lemma Quotient(x: nat) returns (q: nat)
    ensures x == x % 0x1_0000_0000 + q * 0x1_0000_0000
  {
    q := x / 0x1_0000_0000;
  }

  /** 32-bit wrap-around does not show in a smaller power of two. */
  lemma WrapModulo(x: nat, j: nat)
    requires j <= 32
    ensures x % 0x1_0000_0000 % Pow2(j) == x % Pow2(j)
  {
    hide *;
    WrapSum(x, 0, j);
  }

  lemma WrapSum(y: nat, x: nat, j: nat)
    requires j <= 32
    ensures (y % 0x1_0000_0000 + x) % Pow2(j) == (y + x) % Pow2(j)
  {
    hide *;
    WordSplits(j);
    var q := Quotient(y);
    SamePart(y + x, y % 0x1_0000_0000 + x, q, Pow2(j), Pow2(32 - j));
  }

  lemma SamePart(x: nat, w: nat, q: nat, p: nat, n: nat)
    requires p > 0 && x == w + q * (p * n)
    ensures w % p == x % p
  {
    assert q * (p * n) == q * n * p;
    ModPlusMultiple(w, q * n, p);
  }

  // ----- the table sends every read to the right place -----

  /** Every call but one for 4K of a chip of 2K is served: that one has no way out for small chips. */
  predicate Served(chips: seq<Chip>, call: Call)
    requires call.Ok(chips)
  {
    call.k != 12 || chips[call.r].e >= 12
  }

  /**
   The calls that show the right byte at an address: those that are served, those of a chip that is not
   there, and, of the others, those for a bank whose number is a multiple of 2 to the power 20, in its
   lower half.
   */
  predicate Right(chips: seq<Chip>, call: Call, addr: nat)
    requires call.Ok(chips) && call.Covers(addr)
  {
    Served(chips, call) || !chips[call.r].present || (call.v % 0x10_0000 == 0 && addr - call.a < PAGE)
  }

  /** A page of the table, after a bank has been put in whole. */
  lemma WholeBank(pages: seq<Page>, chips: seq<Chip>, call: Call, addr: nat)
    requires call.Ok(chips) && |pages| == 32 && addr < 0x1_0000 && call.k <= chips[call.r].e
    ensures var page := SetWhole(pages, chips, call)[addr / PAGE];
            if call.Covers(addr) then Resolve(page, addr) == OriginOf(chips, call, addr) else page == pages[addr / PAGE]
  {
    hide And, Mask, Pow2;
    PagesFit(call, chips);
    CoverPages(call, chips, addr);
    if call.Covers(addr) {
      OffsetRight(chips[call.r], call.k, call.v, addr - call.a);
    }
  }

  /** The offset of a bank, masked and shifted, and the place in it. */
  lemma OffsetRight(c: Chip, k: nat, v: Uint32, d: nat)
    requires c.Ok() && k <= c.e && d < Pow2(k)
    ensures And(v, Mask(c, k)) * Pow2(k) % 0x1_0000_0000 + d == (v * Pow2(k) + d) % c.Size()
  {
    hide And, Mask, Pow2;
    MaskIsMod(c, k, v);
    SizeIsUnits(c, k);
    SizeFits(c);
    OffsetSum(And(v, Mask(c, k)), v, d, Pow2(c.e - k), Pow2(k));
  }

  lemma SizeFits(c: Chip)
    requires c.Ok()
    ensures c.Size() <= 0x8000_0000
  {
    hide Pow2;
    Pow2Monotone(c.e, 31);
    assert Pow2(31) == 0x8000_0000 by { WidthPowers(); }
  }

  lemma OffsetSum(w: nat, v: nat, d: nat, m: nat, u: nat)
    requires m > 0 && d < u && w == v % m && m * u <= 0x8000_0000
    ensures w * u % 0x1_0000_0000 + d == (v * u + d) % (m * u)
  {
    BankModulo(v, d, m, u);
    FitsWord(w * u);
  }

  lemma FitsWord(x: nat)
    ensures x < 0x1_0000_0000 ==> x % 0x1_0000_0000 == x
  {
  }

  lemma SizeIsUnits(c: Chip, k: nat)
    requires k <= c.e
    ensures c.Size() == Pow2(c.e - k) * Pow2(k)
  {
    Pow2Add(c.e - k, k);
    ShlIsMul(Pow2(c.e - k), k);
  }

  /** An address is covered exactly when its page is one of the bank's. */
  lemma CoverPages(call: Call, chips: seq<Chip>, addr: nat)
    requires call.Ok(chips) && addr < 0x1_0000
    ensures call.Covers(addr) <==> call.a / PAGE <= addr / PAGE < call.a / PAGE + call.PageCount()
  {
    PagesFit(call, chips);
    hide Pow2;
  }

  /** Bank and page of a small chip: the 32-bit arithmetic gives the page of the flat picture. */
  lemma SmallOffsetRight(c: Chip, pageCount: nat, v: Uint32, x: nat, d: nat)
    requires c.Ok() && d < PAGE
    ensures SmallOffset(c, pageCount, v, x) + d == (v * (PAGE * pageCount) + (x * PAGE + d)) % c.Size()
  {
    var y, p := v * pageCount, Pow2(c.e - 11);
    assert y * PAGE == v * (PAGE * pageCount) by { SmallSum(v, pageCount); }
    assert SmallOffset(c, pageCount, v, x) == (y + x) % p * PAGE % 0x1_0000_0000 by {
      hide And, Mask, Pow2;
      SmallMask(c, y, x);
    }
    SmallSize(c);
    hide *;
    SmallPlace(y, x, d, p);
  }

  /** The arithmetic of that: pages of a chip of `p` pages. */
  lemma SmallPlace(y: nat, x: nat, d: nat, p: nat)
    requires p > 0 && d < PAGE && p * PAGE <= 0x8000_0000
    ensures (y + x) % p * PAGE % 0x1_0000_0000 + d == (y * PAGE + (x * PAGE + d)) % (p * PAGE)
  {
    hide *;
    OffsetSum((y + x) % p, y + x, d, p, PAGE);
  }

  lemma SmallMask(c: Chip, y: nat, x: nat)
    requires c.Ok()
    ensures And((y % 0x1_0000_0000 + x) % 0x1_0000_0000, Mask(c, 11)) == (y + x) % Pow2(c.e - 11)
  {
    MaskIsMod(c, 11, (y % 0x1_0000_0000 + x) % 0x1_0000_0000);
    hide And, Mask, Pow2;
    WrapModulo(y % 0x1_0000_0000 + x, c.e - 11);
    WrapSum(y, x, c.e - 11);
  }

  lemma SmallSize(c: Chip)
    requires c.Ok()
    ensures c.Size() == Pow2(c.e - 11) * PAGE && c.Size() <= 0x8000_0000
  {
    UnitIs(c.e);
    Pow2Monotone(c.e, 31);
    WidthPowers();
  }

  lemma SmallSum(v: nat, n: nat)
    ensures v * n * PAGE == v * (PAGE * n)
  {
  }

  /** The pages put in one after the other. */
  lemma {:induction false} SmallPages(pages: seq<Page>, chips: seq<Chip>, call: Call, n: nat, addr: nat)
    requires call.Ok(chips) && |pages| == 32 && n <= call.PageCount() && addr < 0x1_0000
    requires call.Unit() == PAGE * call.PageCount()
    ensures var page := SetSmall(pages, chips, call, n)[addr / PAGE];
            if call.a <= addr < call.a + n * PAGE then call.Covers(addr) && Resolve(page, addr) == OriginOf(chips, call, addr)
            else page == pages[addr / PAGE]
    decreases n
  {
    hide SmallOffset, Pow2, Resolve, OriginOf, Call.Covers;
    if n > 0 {
      PagesFit(call, chips);
      PageAfter(call.a, n, addr);
      SmallPages(pages, chips, call, n - 1, addr);
      SmallPage(SetSmall(pages, chips, call, n - 1), chips, call, n - 1, addr);
    }
  }

  /** One of those pages. */
  lemma SmallPage(pages: seq<Page>, chips: seq<Chip>, call: Call, x: nat, addr: nat)
    requires call.Ok(chips) && |pages| == 32 && x < call.PageCount() && addr < 0x1_0000
    requires call.Unit() == PAGE * call.PageCount() && (call.a + x * PAGE) / PAGE + 1 <= 32
    ensures var page := SetPages(pages, 1, call.a + x * PAGE, chips, call.r,
                                 SmallOffset(chips[call.r], call.PageCount(), call.v, x))[addr / PAGE];
            if call.a + x * PAGE <= addr < call.a + (x + 1) * PAGE
            then call.Covers(addr) && Resolve(page, addr) == OriginOf(chips, call, addr)
            else page == pages[addr / PAGE]
  {
    hide SmallOffset, Pow2;
    PageOf(call.a, x, addr);
    if call.a + x * PAGE <= addr < call.a + (x + 1) * PAGE {
      PagesInside(x, call.PageCount());
      SmallOffsetRight(chips[call.r], call.PageCount(), call.v, x, addr - call.a - x * PAGE);
    }
  }

  lemma PagesInside(x: nat, n: nat)
    requires x < n
    ensures (x + 1) * PAGE <= PAGE * n
  {
  }

  lemma PageAfter(a: nat, n: nat, addr: nat)
    requires n > 0
    ensures a <= addr < a + n * PAGE <==> a <= addr < a + (n - 1) * PAGE || a + (n - 1) * PAGE <= addr < a + n * PAGE
  {
  }

  lemma PageOf(a: nat, x: nat, addr: nat)
    requires a % PAGE == 0
    ensures (a + x * PAGE) / PAGE == a / PAGE + x
    ensures a + x * PAGE <= addr < a + (x + 1) * PAGE <==> addr / PAGE == a / PAGE + x
  {
  }

  /**
   4K of a chip of 2K: there is no way out for small chips, and the mask is all ones.  The read goes where
   the flat picture says exactly in the lower half of a bank whose number is a multiple of 2 to the power 20;
   anywhere else it goes outside the chip.
   */
  lemma FourOfTwo(pages: seq<Page>, chips: seq<Chip>, call: Call, addr: nat)
    requires call.Ok(chips) && |pages| == 32 && call.Covers(addr) && chips[call.r].present && !Served(chips, call)
    ensures call.a + 0x1000 <= 0x1_0000 && addr < 0x1_0000
    ensures var o := Resolve(SetBank(pages, chips, call)[addr / PAGE], addr);
            && o.Place? && o.r == call.r
            && (o == OriginOf(chips, call, addr) <==> call.v % 0x10_0000 == 0 && addr - call.a < PAGE)
            && (0 <= o.off < chips[call.r].Size() <==> o == OriginOf(chips, call, addr))
  {
    hide And, Mask, Pow2;
    var c := chips[call.r];
    SmallPowers();
    assert c.e == 11 && c.Size() == PAGE && call.Unit() == 0x1000;
    AllOnes(c, call.v);
    PagesFit(call, chips);
    CoverPages(call, chips, addr);
    BigOffset(call.v, addr - call.a);
    FourPage(pages, chips, call, addr);
    hide SetBank;
  }

  lemma SmallPowers()
    ensures Pow2(11) == PAGE && Pow2(12) == 0x1000
  {
    UnitIs(11);
    assert Pow2(0) == 1 && Pow2(12) == 2 * Pow2(11);
  }

  /** The page of such a call. */
  lemma FourPage(pages: seq<Page>, chips: seq<Chip>, call: Call, addr: nat)
    requires call.Ok(chips) && |pages| == 32 && addr < 0x1_0000 && chips[call.r].present && call.k == 12
    requires call.a / PAGE <= addr / PAGE < call.a / PAGE + call.PageCount() <= 32
    ensures SetBank(pages, chips, call)[addr / PAGE]
            == Page(Into(call.r, And(call.v, Mask(chips[call.r], 12)) * call.Unit() % 0x1_0000_0000 - call.a), chips[call.r].ram)
  {
    hide And, Mask, Pow2;
  }

  lemma AllOnes(c: Chip, v: Uint32)
    requires c.e == 11
    ensures And(v, Mask(c, 12)) == v
  {
    hide And;
    EmptyMask(c);
    WidthPowers();
    AndAllOnes(v, 32);
  }

  /** No unit of 4K fits, and the mask wraps around. */
  lemma EmptyMask(c: Chip)
    requires c.e == 11
    ensures Mask(c, 12) == 0xFFFF_FFFF
  {
    hide Pow2;
    ShrPower(11, 11);
    ShrShr(c.Size(), 11, 1);
    assert Pow2(0) == 1 by { WidthPowers(); }
    hide Shr;
    assert Shr(1, 1) == 0 by { OneGone(); }
  }

  lemma OneGone()
    ensures Shr(1, 1) == 0
  {
  }

  lemma BigOffset(v: Uint32, d: nat)
    requires d < 0x1000
    ensures v * 0x1000 % 0x1_0000_0000 == v % 0x10_0000 * 0x1000
    ensures (v * 0x1000 + d) % PAGE == d % PAGE
    ensures v * 0x1000 % 0x1_0000_0000 + d == (v * 0x1000 + d) % PAGE <==> v % 0x10_0000 == 0 && d < PAGE
    ensures v * 0x1000 % 0x1_0000_0000 + d < PAGE <==> v % 0x10_0000 == 0 && d < PAGE
  {
    DivModUnique(v * 0x1000, 0x1_0000_0000, v / 0x10_0000, v % 0x10_0000 * 0x1000);
    ModPlusMultiple(d, 2 * v, PAGE);
  }

  /** Addresses that a call does not cover keep their page. */
  lemma BankElsewhere(pages: seq<Page>, chips: seq<Chip>, call: Call, addr: nat)
    requires call.Ok(chips) && |pages| == 32 && addr < 0x1_0000 && !call.Covers(addr)
    ensures SetBank(pages, chips, call)[addr / PAGE] == pages[addr / PAGE]
  {
    hide And, Mask, Pow2;
    PagesFit(call, chips);
    CoverPages(call, chips, addr);
    if !(call.k < 13 || chips[call.r].Size() >= call.Unit()) {
      SmallPages(pages, chips, call, call.PageCount(), addr);
    }
  }

  lemma BankServed(pages: seq<Page>, chips: seq<Chip>, call: Call, addr: nat)
    requires call.Ok(chips) && |pages| == 32 && addr < 0x1_0000 && Served(chips, call) && call.Covers(addr)
    ensures Resolve(SetBank(pages, chips, call)[addr / PAGE], addr) == OriginOf(chips, call, addr)
  {
    var e := chips[call.r].e;
    PagesFit(call, chips);
    if e < call.k { Pow2Monotone(e, call.k); } else { Pow2Monotone(call.k, e); }
    hide And, Mask, Pow2, OriginOf, SetWhole, SetSmall;
    if call.k < 13 || chips[call.r].Size() >= call.Unit() {
      WholeBank(pages, chips, call, addr);
    } else {
      SmallPages(pages, chips, call, call.PageCount(), addr);
    }
  }

  lemma BankAbsent(pages: seq<Page>, chips: seq<Chip>, call: Call, addr: nat)
    requires call.Ok(chips) && |pages| == 32 && addr < 0x1_0000 && call.k == 12 && !chips[call.r].present && call.Covers(addr)
    ensures Resolve(SetBank(pages, chips, call)[addr / PAGE], addr) == OriginOf(chips, call, addr)
  {
    hide And, Mask, Pow2;
    PagesFit(call, chips);
    CoverPages(call, chips, addr);
  }

  /** One call, seen from one address: which calls show the right byte, and that they touch no others. */
  lemma BankShows(pages: seq<Page>, chips: seq<Chip>, call: Call, addr: nat)
    requires call.Ok(chips) && |pages| == 32 && addr < 0x1_0000
    ensures var page := SetBank(pages, chips, call)[addr / PAGE];
            if call.Covers(addr) then Resolve(page, addr) == OriginOf(chips, call, addr) <==> Right(chips, call, addr)
            else page == pages[addr / PAGE]
  {
    hide SetBank, OriginOf, Resolve, Call.Covers;
    if !call.Covers(addr) {
      BankElsewhere(pages, chips, call, addr);
    } else if Served(chips, call) {
      BankServed(pages, chips, call, addr);
    } else if !chips[call.r].present {
      BankAbsent(pages, chips, call, addr);
    } else {
      FourOfTwo(pages, chips, call, addr);
    }
  }

  /** The last call that covered the address is one that shows the right byte there. */
  predicate LastRight(chips: seq<Chip>, calls: seq<Call>, addr: nat)
    requires forall i :: 0 <= i < |calls| ==> calls[i].Ok(chips)
  {
    if calls == [] then true
    else if calls[|calls| - 1].Covers(addr) then Right(chips, calls[|calls| - 1], addr)
    else LastRight(chips, calls[..|calls| - 1], addr)
  }

  /**
   After any calls, a read goes where the last call that covered the address sends it, if and only if
   that call is one that shows the right byte.  The calls before it do not matter.
   */
  lemma {:induction false} TableIsLastCall(pages: seq<Page>, chips: seq<Chip>, calls: seq<Call>, addr: nat)
    requires |pages| == 32 && addr < 0x1_0000
    requires forall i :: 0 <= i < |calls| ==> calls[i].Ok(chips)
    ensures var page := Run(pages, chips, calls)[addr / PAGE];
            if Source(chips, calls, addr) == Unmapped then page == pages[addr / PAGE]
            else Resolve(page, addr) == Source(chips, calls, addr) <==> LastRight(chips, calls, addr)
    decreases |calls|
  {
    hide SetBank, OriginOf, Right, Resolve, Call.Covers;
    if calls != [] {
      var init, call := calls[..|calls| - 1], calls[|calls| - 1];
      TableIsLastCall(pages, chips, init, addr);
      BankShows(Run(pages, chips, init), chips, call, addr);
      if call.Covers(addr) {
        Mapped(chips, call, addr);
      }
    }
  }

  lemma Mapped(chips: seq<Chip>, call: Call, addr: nat)
    requires call.Ok(chips) && call.Covers(addr)
    ensures OriginOf(chips, call, addr) != Unmapped
  {
  }

  /** Every place that a read can come from is inside the chip. */
  lemma {:induction false} SourceInside(chips: seq<Chip>, calls: seq<Call>, addr: nat)
    requires forall i :: 0 <= i < |calls| ==> calls[i].Ok(chips)
    ensures var o := Source(chips, calls, addr);
            o.Place? ==> o.r < |chips| && chips[o.r].present && 0 <= o.off < chips[o.r].Size() && o.ram == chips[o.r].ram
    decreases |calls|
  {
    hide Pow2;
    if calls != [] && !calls[|calls| - 1].Covers(addr) {
      SourceInside(chips, calls[..|calls| - 1], addr);
    }
  }

  lemma PageMultiple(a: nat, n: nat)
    requires a % PAGE == 0
    ensures (a + PAGE * n) % PAGE == 0
  {
    ModPlusMultiple(a, n, PAGE);
  }

  // ----- a bank and its halves -----

  /** The calls for the two halves of a bank; their numbers are 32-bit numbers, too. */
  function LowHalf(call: Call): Call
    requires call.k >= 12
  {
    Call(call.k - 1, call.r, call.a, 2 * call.v % 0x1_0000_0000)
  }

  function HighHalf(call: Call): Call
    requires call.k >= 12
  {
    Call(call.k - 1, call.r, call.a + Pow2(call.k - 1), (2 * call.v + 1) % 0x1_0000_0000)
  }

  function HalfAt(call: Call, addr: nat): Call
    requires call.k >= 12
  {
    if addr < call.a + Pow2(call.k - 1) then LowHalf(call) else HighHalf(call)
  }

  lemma HalvesFit(chips: seq<Chip>, call: Call)
    requires call.Ok(chips) && call.k >= 12
    ensures LowHalf(call).Ok(chips) && HighHalf(call).Ok(chips)
    ensures forall addr: nat :: call.Covers(addr) <==> LowHalf(call).Covers(addr) || HighHalf(call).Covers(addr)
    ensures forall addr: nat :: LowHalf(call).Covers(addr) ==> !HighHalf(call).Covers(addr)
    ensures forall addr: nat :: call.Covers(addr) ==> HalfAt(call, addr).Covers(addr)
  {
    hide Pow2;
    Pow2Double(call.k - 1);
    UnitIs(call.k - 1);
    PageMultiple(call.a, Pow2(call.k - 12));
  }

  /** In the flat picture a bank is its two halves, also when the number of a half wraps around. */
  lemma FlatHalves(chips: seq<Chip>, call: Call, addr: nat)
    requires call.Ok(chips) && call.k >= 12 && call.Covers(addr)
    ensures HalfAt(call, addr).Ok(chips) && HalfAt(call, addr).Covers(addr)
    ensures OriginOf(chips, HalfAt(call, addr), addr) == OriginOf(chips, call, addr)
  {
    hide *;
    var half := HalfAt(call, addr);
    HalfCall(chips, call, addr);
    FlatOffsets(call.v, call.Unit(), half.Unit(), addr - call.a, chips[call.r].e);
    OriginIs(chips, call, addr);
    OriginIs(chips, half, addr);
  }

  lemma HalfCall(chips: seq<Chip>, call: Call, addr: nat)
    requires call.Ok(chips) && call.k >= 12 && call.Covers(addr)
    ensures call.r < |chips| && HalfAt(call, addr).Ok(chips) && HalfAt(call, addr).Covers(addr)
    ensures var half := HalfAt(call, addr);
            && half.r == call.r && call.Unit() == 2 * half.Unit() && addr >= call.a && chips[call.r].e <= 32
            && (if addr - call.a < half.Unit() then half.a == call.a && half.v == 2 * call.v % 0x1_0000_0000
                else half.a == call.a + half.Unit() && half.v == (2 * call.v + 1) % 0x1_0000_0000)
  {
    hide Pow2;
    HalvesFit(chips, call);
    Pow2Double(call.k - 1);
  }

  lemma OriginIs(chips: seq<Chip>, call: Call, addr: nat)
    requires call.Ok(chips) && call.Covers(addr)
    ensures addr >= call.a
    ensures OriginOf(chips, call, addr)
            == if chips[call.r].present
               then Place(call.r, (call.v * call.Unit() + (addr - call.a)) % Pow2(chips[call.r].e), chips[call.r].ram) else Absent
  {
    hide Pow2;
  }

  lemma FlatOffsets(v: nat, unit: nat, half: nat, d: nat, e: nat)
    requires unit == 2 * half && e <= 32
    ensures if d < half then (v * unit + d) % Pow2(e) == (2 * v % 0x1_0000_0000 * half + d) % Pow2(e)
            else (v * unit + d) % Pow2(e) == ((2 * v + 1) % 0x1_0000_0000 * half + (d - half)) % Pow2(e)
  {
    hide *;
    HalfOffsets(v, unit, half);
    if d < half {
      WrappedNumber(2 * v, half, d, e);
    } else {
      WrappedNumber(2 * v + 1, half, d - half, e);
    }
  }

  lemma HalfOffsets(v: nat, unit: nat, half: nat)
    requires unit == 2 * half
    ensures v * unit == 2 * v * half && (2 * v + 1) * half == v * unit + half
  {
  }

  lemma WrappedNumber(x: nat, h: nat, d: nat, e: nat)
    requires e <= 32
    ensures (x % 0x1_0000_0000 * h + d) % Pow2(e) == (x * h + d) % Pow2(e)
  {
    hide Pow2;
    var q := Quotient(x);
    WordSplits(e);
    Distribute(x % 0x1_0000_0000, q, 0x1_0000_0000, h);
    SamePart(x * h + d, x % 0x1_0000_0000 * h + d, q * h, Pow2(e), Pow2(32 - e));
  }

  lemma Distribute(w: nat, q: nat, m: nat, h: nat)
    ensures (w + q * m) * h == w * h + q * h * m
  {
    assert q * m * h == q * h * m;
  }

  lemma RunTwo(pages: seq<Page>, chips: seq<Chip>, first: Call, second: Call)
    requires |pages| == 32 && first.Ok(chips) && second.Ok(chips)
    ensures Run(pages, chips, [first, second]) == SetBank(SetBank(pages, chips, first), chips, second)
  {
    hide SetBank;
    var calls := [first, second];
    assert calls[..1] == [first] && [first][..0] == [];
    assert Run(pages, chips, [first]) == SetBank(Run(pages, chips, [first][..0]), chips, first);
    assert Run(pages, chips, calls) == SetBank(Run(pages, chips, calls[..1]), chips, second);
  }

  /** After the calls for both halves an address sees the half it lies in. */
  lemma HalvesShow(pages: seq<Page>, chips: seq<Chip>, call: Call, addr: nat)
    requires call.Ok(chips) && call.k >= 12 && |pages| == 32 && addr < 0x1_0000
    ensures LowHalf(call).Ok(chips) && HighHalf(call).Ok(chips)
    ensures var page := Run(pages, chips, [LowHalf(call), HighHalf(call)])[addr / PAGE];
            if call.Covers(addr)
            then var half := HalfAt(call, addr);
                 half.Covers(addr) && (Resolve(page, addr) == OriginOf(chips, half, addr) <==> Right(chips, half, addr))
            else page == pages[addr / PAGE]
  {
    hide SetBank, OriginOf, Right, Resolve, Call.Covers, Pow2;
    var low, high := LowHalf(call), HighHalf(call);
    HalvesFit(chips, call);
    RunTwo(pages, chips, low, high);
    var between := SetBank(pages, chips, low);
    BankShows(pages, chips, low, addr);
    BankShows(between, chips, high, addr);
    if call.Covers(addr) {
      assert HalfAt(call, addr).Covers(addr);
    }
  }

  /** Whether a bank and its halves show the same byte at an address. */
  predicate Agree(pages: seq<Page>, chips: seq<Chip>, call: Call, addr: nat)
    requires call.Ok(chips) && call.k >= 12 && |pages| == 32 && addr < 0x1_0000
  {
    HalvesFit(chips, call);
    Resolve(SetBank(pages, chips, call)[addr / PAGE], addr)
    == Resolve(Run(pages, chips, [LowHalf(call), HighHalf(call)])[addr / PAGE], addr)
  }

  /**
   At one address: the table after a call for 32K, 16K, 8K or 4K sends a read where the table after the
   two calls for its halves does, if and only if both send it to the right byte.
   */
  lemma AgreeExactlyWhen(pages: seq<Page>, chips: seq<Chip>, call: Call, addr: nat)
    requires call.Ok(chips) && call.k >= 12 && |pages| == 32 && addr < 0x1_0000
    ensures call.Covers(addr) ==> HalfAt(call, addr).Ok(chips) && HalfAt(call, addr).Covers(addr)
    ensures Agree(pages, chips, call, addr)
            <==> (call.Covers(addr) ==> Right(chips, call, addr) && Right(chips, HalfAt(call, addr), addr))
  {
    hide SetBank, OriginOf, Resolve, Call.Covers, Pow2, Run;
    HalvesFit(chips, call);
    BankShows(pages, chips, call, addr);
    HalvesShow(pages, chips, call, addr);
    if call.Covers(addr) {
      FlatHalves(chips, call, addr);
      HalfKind(chips, call, addr);
    }
  }

  /** A bank and its half are not both left without a way out. */
  lemma HalfKind(chips: seq<Chip>, call: Call, addr: nat)
    requires call.Ok(chips) && call.k >= 12 && call.Covers(addr)
    ensures HalfAt(call, addr).r == call.r && HalfAt(call, addr).k == call.k - 1
  {
  }

  /**
   The table after a call for 32K, 16K, 8K or 4K is the table after the two calls for its halves, at
   every address, if and only if the chip holds at least 4K, or is not there, or the bank has 16K or
   more: 8K of a 2K chip work and its 4K halves do not, and 4K do not and the 2K halves do.
   */
  lemma BankIsHalves(pages: seq<Page>, chips: seq<Chip>, call: Call)
    requires call.Ok(chips) && call.k >= 12 && |pages| == 32
    ensures (forall addr: nat :: addr < 0x1_0000 ==> Agree(pages, chips, call, addr))
            <==> chips[call.r].e >= 12 || !chips[call.r].present || call.k >= 14
  {
    hide Agree, Pow2;
    if chips[call.r].e >= 12 || !chips[call.r].present || call.k >= 14 {
      forall addr: nat | addr < 0x1_0000
        ensures Agree(pages, chips, call, addr)
      {
        AgreeExactlyWhen(pages, chips, call, addr);
        if call.Covers(addr) {
          HalfKind(chips, call, addr);
        }
      }
    } else {
      SecondPage(chips, call);
      var addr := call.a + PAGE;
      AgreeExactlyWhen(pages, chips, call, addr);
      HalfKind(chips, call, addr);
    }
  }

  /** The second 2K of a bank of 4K or 8K. */
  lemma SecondPage(chips: seq<Chip>, call: Call)
    requires call.Ok(chips) && 12 <= call.k <= 13
    ensures call.a + PAGE < 0x1_0000 && call.Covers(call.a + PAGE)
    ensures call.k == 13 ==> HalfAt(call, call.a + PAGE).a == call.a
  {
    UnitIs(11);
    assert Pow2(12) == 2 * Pow2(11) && Pow2(13) == 2 * Pow2(12);
  }

  // ----- the program -----

  class Cart {
    const chips: seq<Chip>
    const pages: array<Page>
    var mem: seq<seq<Byte>>

    /** Every pointer stays inside its chip. */
    ghost predicate Valid()
      reads this, pages
    {
      && pages.Length == 32 && |mem| == |chips|
      && (forall r :: 0 <= r < |chips| ==> |mem[r]| == chips[r].Size())
      && InsideAll(chips, pages[..], mem)
    }

    /** `ResetCartMapping` points every page to 8K of zeros, which are the last of the chips here. */
    constructor (chips: seq<Chip>, mem: seq<seq<Byte>>)
      requires |mem| == |chips| > 0 && chips[|chips| - 1] == Chip(true, 13, false)
      requires forall r :: 0 <= r < |chips| ==> |mem[r]| == chips[r].Size()
      ensures Valid() && this.chips == chips && this.mem == mem && fresh(pages)
    {
      this.chips, this.mem := chips, mem;
      pages := new Page[32](x => Page(Into(|chips| - 1, -(x * PAGE)), false));
      new;
      UnitIs(13);
      WidthPowers();
      hide Pow2;
    }

    /** `setpageptr`. */
    method SetPagePtr(n: nat, a: nat, r: nat, off: nat)
      requires r < |chips| && a / PAGE + n <= pages.Length
      modifies pages
      ensures pages[..] == SetPages(old(pages[..]), n, a, chips, r, off)
    {
      ghost var before := pages[..];
      var ab, x: int := a / PAGE, n - 1;
      if chips[r].present {
        while x >= 0
          invariant -1 <= x < n
          invariant forall i :: 0 <= i < pages.Length ==>
                      pages[i] == if ab + x < i < ab + n then Page(Into(r, off - a), chips[r].ram) else before[i]
        {
          pages[ab + x] := Page(Into(r, off - a), chips[r].ram);
          x := x - 1;
        }
      } else {
        while x >= 0
          invariant -1 <= x < n
          invariant forall i :: 0 <= i < pages.Length ==>
                      pages[i] == if ab + x < i < ab + n then Page(Null, false) else before[i]
        {
          pages[ab + x] := Page(Null, false);
          x := x - 1;
        }
      }
    }

    /** The loop for chips that are smaller than the bank. */
    method SetSmallChip(call: Call)
      requires call.Ok(chips) && pages.Length == 32
      modifies pages
      ensures pages[..] == SetSmall(old(pages[..]), chips, call, call.PageCount())
    {
      hide SmallOffset, Pow2, SetPages, Chip.Ok;
      ghost var before := pages[..];
      var x, n := 0, call.PageCount();
      PagesFit(call, chips);
      while x < n
        invariant x <= n && pages[..] == SetSmall(before, chips, call, x)
      {
        SetPagePtr(1, call.a + x * PAGE, call.r, SmallOffset(chips[call.r], n, call.v, x));
        x := x + 1;
      }
    }

    /** `setprg2r` to `setprg32r`: the pointers stay inside their chips exactly when the call is served. */
    method SetPrg(call: Call)
      requires pages.Length == 32 && call.Ok(chips)
      modifies pages
      ensures pages[..] == SetBank(old(pages[..]), chips, call)
      ensures old(Valid()) ==> (Valid() <==> Served(chips, call) || !chips[call.r].present)
    {
      ghost var before := pages[..];
      if call.k < 13 || chips[call.r].Size() >= call.Unit() {
        var v := And(call.v, Mask(chips[call.r], call.k));
        PagesFit(call, chips);
        SetPagePtr(call.PageCount(), call.a, call.r, v * call.Unit() % 0x1_0000_0000);
      } else {
        SetSmallChip(call);
      }
      hide SetBank, Pow2;
      if old(Valid()) {
        StaysInside(before, chips, call, mem);
      }
    }

    /** `CartBROB`: where no chip is, the data bus keeps its last value. */
    method Read(addr: nat, bus: Byte) returns (v: Byte)
      requires Valid() && addr < 0x1_0000
      ensures v == match Resolve(pages[addr / PAGE], addr)
                   case Place(r, off, _) => mem[r][off]
                   case _ => bus
    {
      hide Pow2;
      var page := pages[addr / PAGE];
      assert page == pages[..][addr / PAGE] && Inside(chips, Resolve(page, addr), mem);
      match page.p {
        case Null => v := bus;
        case Into(r, bias) => v := mem[r][bias + addr];
      }
    }

    /** `CartBW`: only pages of RAM are written. */
    method Write(addr: nat, v: Byte)
      requires Valid() && addr < 0x1_0000
      modifies this`mem
      ensures Valid()
      ensures match Resolve(pages[addr / PAGE], addr)
              case Place(r, off, ram) => mem == if ram then Poke(old(mem), r, off, v) else old(mem)
              case _ => mem == old(mem)
      ensures forall r :: 0 <= r < |chips| && !chips[r].ram ==> mem[r] == old(mem)[r]
    {
      hide Pow2;
      var page := pages[addr / PAGE];
      assert page == pages[..][addr / PAGE] && Inside(chips, Resolve(page, addr), mem);
      if page.ram && page.p.Into? {
        mem := Poke(mem, page.p.r, page.p.bias + addr, v);
      }
    }
  }

  /** Wherever a read goes, it goes into a chip. */
  ghost predicate InsideAll(chips: seq<Chip>, pages: seq<Page>, mem: seq<seq<Byte>>)
    requires |pages| == 32
  {
    forall addr: nat :: addr < 0x1_0000 ==> Inside(chips, Resolve(pages[addr / PAGE], addr), mem)
  }

  lemma StaysInside(pages: seq<Page>, chips: seq<Chip>, call: Call, mem: seq<seq<Byte>>)
    requires |pages| == 32 && call.Ok(chips) && InsideAll(chips, pages, mem)
    requires |mem| == |chips| && forall r :: 0 <= r < |chips| ==> |mem[r]| == chips[r].Size()
    ensures InsideAll(chips, SetBank(pages, chips, call), mem) <==> Served(chips, call) || !chips[call.r].present
  {
    hide SetBank, Pow2, Resolve;
    if Served(chips, call) || !chips[call.r].present {
      forall addr: nat | addr < 0x1_0000
        ensures Inside(chips, Resolve(SetBank(pages, chips, call)[addr / PAGE], addr), mem)
      {
        BankShows(pages, chips, call, addr);
        assert Inside(chips, Resolve(pages[addr / PAGE], addr), mem);
      }
    } else {
      SecondPage(chips, call);
      var addr := call.a + PAGE;
      FourOfTwo(pages, chips, call, addr);
      assert addr - call.a == PAGE;
      FourOutside(chips, Resolve(SetBank(pages, chips, call)[addr / PAGE], addr), call, mem);
    }
  }

  lemma FourOutside(chips: seq<Chip>, o: Origin, call: Call, mem: seq<seq<Byte>>)
    requires call.Ok(chips) && o.Place? && o.r == call.r && !(0 <= o.off < chips[call.r].Size())
    requires |mem| == |chips| && forall r :: 0 <= r < |chips| ==> |mem[r]| == chips[r].Size()
    ensures !Inside(chips, o, mem)
  {
  }

  /** The place is inside its chip, and marked as the chip is. */
  predicate Inside(chips: seq<Chip>, o: Origin, mem: seq<seq<Byte>>) {
    o.Place? ==> o.r < |mem| && o.r < |chips| && 0 <= o.off < |mem[o.r]| && o.ram == chips[o.r].ram
  }

  function Poke(mem: seq<seq<Byte>>, r: nat, off: nat, v: Byte): (m: seq<seq<Byte>>)
    requires r < |mem| && off < |mem[r]|
    ensures |m| == |mem| && forall q :: 0 <= q < |mem| ==> |m[q]| == |mem[q]|
  {
    var bytes: seq<Byte> := mem[r][off := v];
    mem[r := bytes]
  }
}
