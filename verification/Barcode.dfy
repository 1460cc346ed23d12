/**
 The bar codes of the Datach reader (fceux-am/src/boards/bandai.cpp, lines 303-440): EAN-13 and EAN-8 as
 in the GS1 General Specifications, section 5.2.

 The specification is a decoder: from the bars alone it recovers every digit and checks the check digit.
 */
module Barcode {
  import opened Options

  type Byte = b: nat | b < 0x100

  type Digit = d: nat | d < 10

  /** The number sets: left odd, left even and right. */
  datatype Set = A | B | C

  // ----- the tables -----

  const LEFT_ODD: seq<seq<Byte>> := [
    [0, 0, 0, 1, 1, 0, 1], [0, 0, 1, 1, 0, 0, 1], [0, 0, 1, 0, 0, 1, 1], [0, 1, 1, 1, 1, 0, 1],
    [0, 1, 0, 0, 0, 1, 1], [0, 1, 1, 0, 0, 0, 1], [0, 1, 0, 1, 1, 1, 1], [0, 1, 1, 1, 0, 1, 1],
    [0, 1, 1, 0, 1, 1, 1], [0, 0, 0, 1, 0, 1, 1]]

  const LEFT_EVEN: seq<seq<Byte>> := [
    [0, 1, 0, 0, 1, 1, 1], [0, 1, 1, 0, 0, 1, 1], [0, 0, 1, 1, 0, 1, 1], [0, 1, 0, 0, 0, 0, 1],
    [0, 0, 1, 1, 1, 0, 1], [0, 1, 1, 1, 0, 0, 1], [0, 0, 0, 0, 1, 0, 1], [0, 0, 1, 0, 0, 0, 1],
    [0, 0, 0, 1, 0, 0, 1], [0, 0, 1, 0, 1, 1, 1]]

  const RIGHT: seq<seq<Byte>> := [
    [1, 1, 1, 0, 0, 1, 0], [1, 1, 0, 0, 1, 1, 0], [1, 1, 0, 1, 1, 0, 0], [1, 0, 0, 0, 0, 1, 0],
    [1, 0, 1, 1, 1, 0, 0], [1, 0, 0, 1, 1, 1, 0], [1, 0, 1, 0, 0, 0, 0], [1, 0, 0, 0, 1, 0, 0],
    [1, 0, 0, 1, 0, 0, 0], [1, 1, 1, 0, 1, 0, 0]]

  /** 1 stands for the even set. */
  const PREFIX_PARITY: seq<seq<nat>> := [
    [0, 0, 0, 0, 0, 0], [0, 0, 1, 0, 1, 1], [0, 0, 1, 1, 0, 1], [0, 0, 1, 1, 1, 0],
    [0, 1, 0, 0, 1, 1], [0, 1, 1, 0, 0, 1], [0, 1, 1, 1, 0, 0], [0, 1, 0, 1, 0, 1],
    [0, 1, 0, 1, 1, 0], [0, 1, 1, 0, 1, 0]]

  function Pattern(s: Set, d: Digit): (p: seq<Byte>)
    ensures |p| == 7
  {
    match s
    case A => LEFT_ODD[d]
    case B => LEFT_EVEN[d]
    case C => RIGHT[d]
  }

  /** The sets of the six left symbols, which encode the first digit of an EAN-13. */
  function Parity(d: Digit): (sets: seq<Set>)
    ensures |sets| == 6
  {
    seq(6, i requires 0 <= i < 6 => if PREFIX_PARITY[d][i] == 1 then B else A)
  }

  /** A pattern as a number. */
  function Number(p: seq<Byte>): nat
    requires |p| == 7
  {
    64 * (p[0] as int) + 32 * (p[1] as int) + 16 * (p[2] as int) + 8 * (p[3] as int) + 4 * (p[4] as int) + 2 * (p[5] as int) + p[6]
  }

  function PatternNumber(s: Set, d: Digit): nat {
    match s
    case A => [13, 25, 19, 61, 35, 49, 47, 59, 55, 11][d]
    case B => [39, 51, 27, 33, 29, 57, 5, 17, 9, 23][d]
    case C => [114, 102, 108, 66, 92, 78, 80, 68, 72, 116][d]
  }

  lemma Digits(d: Digit)
    ensures d == 0 || d == 1 || d == 2 || d == 3 || d == 4 || d == 5 || d == 6 || d == 7 || d == 8 || d == 9
  {
  }

  lemma NumberOfPattern(s: Set, d: Digit)
    ensures Number(Pattern(s, d)) == PatternNumber(s, d)
  {
    Digits(d);
  }

  lemma NumbersDiffer(s: Set, d: Digit, t: Set, e: Digit)
    requires PatternNumber(s, d) == PatternNumber(t, e)
    ensures s == t && d == e
  {
    Digits(d);
    Digits(e);
  }

  /** No two symbols look alike. */
  lemma PatternsDiffer(s: Set, d: Digit, t: Set, e: Digit)
    requires Pattern(s, d) == Pattern(t, e)
    ensures s == t && d == e
  {
    hide Pattern, PatternNumber;
    NumberOfPattern(s, d);
    NumberOfPattern(t, e);
    NumbersDiffer(s, d, t, e);
  }

  /** Set C is the complement of set A, and set B is set C read backwards. */
  lemma SetsRelated(d: Digit, i: nat)
    requires i < 7
    ensures Pattern(C, d)[i] == 1 - Pattern(A, d)[i] && Pattern(B, d)[i] == Pattern(C, d)[6 - i]
  {
    Digits(d);
    assert i == 0 || i == 1 || i == 2 || i == 3 || i == 4 || i == 5 || i == 6;
  }

  function Modules(v: Byte, n: nat): (s: seq<Byte>)
    ensures |s| == n
  {
    seq(n, _ => v)
  }

  /** Widths of space, bar, space and bar of a digit in set A; they always add up to seven modules. */
  function Widths(d: Digit): (nat, nat, nat, nat) {
    match d
    case 0 => (3, 2, 1, 1)
    case 1 => (2, 2, 2, 1)
    case 2 => (2, 1, 2, 2)
    case 3 => (1, 4, 1, 1)
    case 4 => (1, 1, 3, 2)
    case 5 => (1, 2, 3, 1)
    case 6 => (1, 1, 1, 4)
    case 7 => (1, 3, 1, 2)
    case 8 => (1, 2, 1, 3)
    case _ => (3, 1, 1, 2)
  }

  /** The elements of a digit in set A; the other two sets follow with `SetsRelated`. */
  lemma ElementWidths(d: Digit)
    ensures var w := Widths(d);
            Pattern(A, d) == Modules(0, w.0) + Modules(1, w.1) + Modules(0, w.2) + Modules(1, w.3)
  {
    Digits(d);
  }

  /** The places of the symbols from set B, counted from 0, for each first digit. */
  function EvenPlaces(d: Digit): set<nat> {
    match d
    case 0 => {}
    case 1 => {2, 4, 5}
    case 2 => {2, 3, 5}
    case 3 => {2, 3, 4}
    case 4 => {1, 4, 5}
    case 5 => {1, 2, 5}
    case 6 => {1, 2, 3}
    case 7 => {1, 3, 5}
    case 8 => {1, 3, 4}
    case _ => {1, 2, 4}
  }

  lemma ParityPlaces(d: Digit, i: nat)
    requires i < 6
    ensures Parity(d)[i] == if i in EvenPlaces(d) then B else A
  {
    Digits(d);
    assert i == 0 || i == 1 || i == 2 || i == 3 || i == 4 || i == 5;
  }

  function ParityNumber(d: Digit): nat {
    [0, 11, 13, 14, 19, 25, 28, 21, 22, 26][d]
  }

  function SetBit(s: Set): nat {
    if s.B? then 1 else 0
  }

  function SetsNumber(sets: seq<Set>): nat
    requires |sets| == 6
  {
    32 * SetBit(sets[0]) + 16 * SetBit(sets[1]) + 8 * SetBit(sets[2]) + 4 * SetBit(sets[3]) + 2 * SetBit(sets[4]) + SetBit(sets[5])
  }

  lemma NumberOfParity(d: Digit)
    ensures SetsNumber(Parity(d)) == ParityNumber(d)
  {
    Digits(d);
  }

  lemma ParitiesDiffer(d: Digit, e: Digit)
    requires Parity(d) == Parity(e)
    ensures d == e
  {
    hide Parity;
    NumberOfParity(d);
    NumberOfParity(e);
    Digits(d);
    Digits(e);
  }

  // ----- encoding -----

  function Zeros(n: nat): (s: seq<Byte>)
    ensures |s| == n
  {
    seq(n, _ => 0)
  }

  function Guard(): (s: seq<Byte>)
    ensures |s| == 3
  {
    [1, 0, 1]
  }

  function Center(): (s: seq<Byte>)
    ensures |s| == 5
  {
    [0, 1, 0, 1, 0]
  }

  function Symbols(sets: seq<Set>, digits: seq<Digit>): (s: seq<Byte>)
    requires |sets| == |digits|
    ensures |s| == 7 * |digits|
  {
    if digits == [] then []
    else Symbols(sets[..|sets| - 1], digits[..|digits| - 1]) + Pattern(sets[|sets| - 1], digits[|digits| - 1])
  }

  function Repeat(s: Set, n: nat): (sets: seq<Set>)
    ensures |sets| == n && forall i :: 0 <= i < n ==> sets[i] == s
  {
    seq(n, _ => s)
  }

  function Layout(left: seq<Byte>, right: seq<Byte>): seq<Byte> {
    Zeros(32) + Guard() + left + Center() + right + Guard() + Zeros(32) + [0xFF]
  }

  /** Sum of the digits, those at even places weighted with `even` and the others with `odd`. */
  function Weighted(code: seq<Digit>, even: nat, odd: nat): nat {
    if code == [] then 0
    else
      var i := |code| - 1;
      Weighted(code[..i], even, odd) + code[i] * (if i % 2 == 0 then even else odd)
  }

  function CheckDigit(sum: nat): Digit {
    (10 - sum % 10) % 10
  }

  /** The check digit makes the sum a multiple of ten. */
  lemma CheckDigitCompletes(sum: nat)
    ensures (sum + CheckDigit(sum)) % 10 == 0
  {
  }

  function Ean13(code: seq<Digit>): seq<Byte>
    requires |code| >= 12
  {
    var check := CheckDigit(Weighted(code[..12], 1, 3));
    Layout(Symbols(Parity(code[0]), code[1..7]), Symbols(Repeat(C, 6), code[7..12] + [check]))
  }

  function Ean8(code: seq<Digit>): seq<Byte>
    requires |code| >= 7
  {
    var check := CheckDigit(Weighted(code[..7], 3, 1));
    Layout(Symbols(Repeat(A, 4), code[..4]), Symbols(Repeat(C, 4), code[4..7] + [check]))
  }

  // ----- decoding -----

  /** The least digit from `from` on whose pattern in `s` is `p`. */
  function FindDigit(s: Set, p: seq<Byte>, from: nat): Option<Digit>
    requires from <= 10
    decreases 10 - from
  {
    if from == 10 then None else if Pattern(s, from) == p then Some(from) else FindDigit(s, p, from + 1)
  }

  datatype Symbol = Symbol(kind: Set, digit: Digit)

  function ReadSymbol(p: seq<Byte>): Option<Symbol> {
    match FindDigit(A, p, 0)
    case Some(d) => Some(Symbol(A, d))
    case None =>
      match FindDigit(B, p, 0)
      case Some(d) => Some(Symbol(B, d))
      case None =>
        match FindDigit(C, p, 0)
        case Some(d) => Some(Symbol(C, d))
        case None => None
  }

  function ReadSymbols(bars: seq<Byte>): Option<seq<Symbol>>
    decreases |bars|
  {
    if |bars| < 7 then if bars == [] then Some([]) else None
    else
      match ReadSymbols(bars[..|bars| - 7])
      case None => None
      case Some(before) =>
        match ReadSymbol(bars[|bars| - 7..])
        case None => None
        case Some(x) => Some(before + [x])
  }

  function DigitsOf(xs: seq<Symbol>): (ds: seq<Digit>)
    ensures |ds| == |xs|
  {
    seq(|xs|, i requires 0 <= i < |xs| => xs[i].digit)
  }

  function SetsOf(xs: seq<Symbol>): (sets: seq<Set>)
    ensures |sets| == |xs|
  {
    seq(|xs|, i requires 0 <= i < |xs| => xs[i].kind)
  }

  function FindParity(sets: seq<Set>, from: nat): Option<Digit>
    requires from <= 10
    decreases 10 - from
  {
    if from == 10 then None else if Parity(from) == sets then Some(from) else FindParity(sets, from + 1)
  }

  /** The bars between the quiet zones, as left and right half, if guards and quiet zones are in place. */
  function Halves(bars: seq<Byte>, n: nat): Option<(seq<Byte>, seq<Byte>)> {
    if |bars| == 76 + 14 * n
       && bars[32..35] == [1, 0, 1] && bars[35 + 7 * n..40 + 7 * n] == [0, 1, 0, 1, 0] && bars[40 + 14 * n..43 + 14 * n] == [1, 0, 1]
       && bars[..32] == Zeros(32) && bars[43 + 14 * n..75 + 14 * n] == Zeros(32) && bars[75 + 14 * n] == 0xFF
    then Some((bars[35..35 + 7 * n], bars[40 + 7 * n..40 + 14 * n]))
    else None
  }

  /** The thirteen digits of an EAN-13. */
  function Decode13(bars: seq<Byte>): Option<seq<Digit>> {
    match Halves(bars, 6)
    case None => None
    case Some(h) =>
      match ReadSymbols(h.0)
      case None => None
      case Some(left) =>
        match ReadSymbols(h.1)
        case None => None
        case Some(right) =>
          match FindParity(SetsOf(left), 0)
          case None => None
          case Some(first) =>
            var digits := [first] + DigitsOf(left) + DigitsOf(right);
            if SetsOf(right) == Repeat(C, 6) && |digits| == 13 && Weighted(digits, 1, 3) % 10 == 0 then Some(digits) else None
  }

  /** The eight digits of an EAN-8. */
  function Decode8(bars: seq<Byte>): Option<seq<Digit>> {
    match Halves(bars, 4)
    case None => None
    case Some(h) =>
      match ReadSymbols(h.0)
      case None => None
      case Some(left) =>
        match ReadSymbols(h.1)
        case None => None
        case Some(right) =>
          var digits := DigitsOf(left) + DigitsOf(right);
          if SetsOf(left) == Repeat(A, 4) && SetsOf(right) == Repeat(C, 4) && |digits| == 8 && Weighted(digits, 3, 1) % 10 == 0
          then Some(digits) else None
  }

  /** The bars up to the mark that ends them. */
  function UpToMark(data: seq<Byte>): seq<Byte> {
    if data == [] then [] else if data[0] == 0xFF then [0xFF] else [data[0]] + UpToMark(data[1..])
  }

  /** What a reader makes of the data: the number of bars tells the two formats apart. */
  function Decode(data: seq<Byte>): Option<seq<Digit>> {
    var bars := UpToMark(data);
    if |bars| == 160 then Decode13(bars) else Decode8(bars)
  }

  // ----- the decoder undoes the encoder -----

  lemma {:induction false} FindOwnDigit(s: Set, d: Digit, from: nat)
    requires from <= d
    ensures FindDigit(s, Pattern(s, d), from) == Some(d)
    decreases 10 - from
  {
    hide Pattern;
    if from < d {
      if Pattern(s, from) == Pattern(s, d) {
        PatternsDiffer(s, from, s, d);
      }
      FindOwnDigit(s, d, from + 1);
    }
  }

  lemma {:induction false} FindNoDigit(t: Set, s: Set, d: Digit, from: nat)
    requires from <= 10 && s != t
    ensures FindDigit(t, Pattern(s, d), from) == None
    decreases 10 - from
  {
    hide Pattern;
    if from < 10 {
      if Pattern(t, from) == Pattern(s, d) {
        PatternsDiffer(t, from, s, d);
      }
      FindNoDigit(t, s, d, from + 1);
    }
  }

  lemma ReadOwnSymbol(s: Set, d: Digit)
    ensures ReadSymbol(Pattern(s, d)) == Some(Symbol(s, d))
  {
    hide Pattern, FindDigit;
    FindOwnDigit(s, d, 0);
    if s != A { FindNoDigit(A, s, d, 0); }
    if s == C { FindNoDigit(B, s, d, 0); }
  }

  function Zip(sets: seq<Set>, digits: seq<Digit>): (xs: seq<Symbol>)
    requires |sets| == |digits|
    ensures |xs| == |digits|
  {
    seq(|digits|, i requires 0 <= i < |digits| => Symbol(sets[i], digits[i]))
  }

  lemma {:induction false} ReadOwnSymbols(sets: seq<Set>, digits: seq<Digit>)
    requires |sets| == |digits|
    ensures ReadSymbols(Symbols(sets, digits)) == Some(Zip(sets, digits))
    decreases |digits|
  {
    hide Pattern, ReadSymbol;
    if digits == [] {
      assert Zip(sets, digits) == [];
    } else {
      var n := |digits| - 1;
      ReadOwnSymbols(sets[..n], digits[..n]);
      ReadOwnSymbol(sets[n], digits[n]);
      var bars := Symbols(sets, digits);
      assert bars[..|bars| - 7] == Symbols(sets[..n], digits[..n]);
      assert bars[|bars| - 7..] == Pattern(sets[n], digits[n]);
      assert Zip(sets, digits) == Zip(sets[..n], digits[..n]) + [Symbol(sets[n], digits[n])];
    }
  }

  lemma ZipParts(sets: seq<Set>, digits: seq<Digit>)
    requires |sets| == |digits|
    ensures SetsOf(Zip(sets, digits)) == sets && DigitsOf(Zip(sets, digits)) == digits
  {
  }

  lemma {:induction false} FindOwnParity(d: Digit, from: nat)
    requires from <= d
    ensures FindParity(Parity(d), from) == Some(d)
    decreases 10 - from
  {
    hide Parity;
    if from < d {
      if Parity(from) == Parity(d) {
        ParitiesDiffer(from, d);
      }
      FindOwnParity(d, from + 1);
    }
  }

  lemma HalvesOfLayout(left: seq<Byte>, right: seq<Byte>, n: nat)
    requires |left| == |right| == 7 * n
    ensures Halves(Layout(left, right), n) == Some((left, right))
  {
    var bars := Layout(left, right);
    assert bars[..32] == Zeros(32) && bars[43 + 14 * n..75 + 14 * n] == Zeros(32);
    assert bars[32..35] == Guard() && bars[40 + 14 * n..43 + 14 * n] == Guard();
    assert bars[35..35 + 7 * n] == left;
    assert bars[35 + 7 * n..40 + 7 * n] == Center();
    assert bars[40 + 7 * n..40 + 14 * n] == right;
  }

  lemma WeightedAppend(code: seq<Digit>, d: Digit, even: nat, odd: nat)
    ensures Weighted(code + [d], even, odd) == Weighted(code, even, odd) + d * (if |code| % 2 == 0 then even else odd)
  {
    assert (code + [d])[..|code|] == code;
  }

  lemma Decode13Encoded(code: seq<Digit>)
    requires |code| >= 12
    ensures Decode13(Ean13(code)) == Some(code[..12] + [CheckDigit(Weighted(code[..12], 1, 3))])
  {
    hide Layout, Symbols, Parity, Weighted, Halves, ReadSymbols, FindParity, CheckDigit, Zip, SetsOf, DigitsOf, Repeat;
    var sum := Weighted(code[..12], 1, 3);
    var check := CheckDigit(sum);
    var ls, ld, rs, rd := Parity(code[0]), code[1..7], Repeat(C, 6), code[7..12] + [check];
    HalvesOfLayout(Symbols(ls, ld), Symbols(rs, rd), 6);
    ReadOwnSymbols(ls, ld);
    ReadOwnSymbols(rs, rd);
    ZipParts(ls, ld);
    ZipParts(rs, rd);
    FindOwnParity(code[0], 0);
    assert [code[0]] + ld + rd == code[..12] + [check];
    WeightedAppend(code[..12], check, 1, 3);
    CheckDigitCompletes(sum);
  }

  lemma Decode8Encoded(code: seq<Digit>)
    requires |code| >= 7
    ensures Decode8(Ean8(code)) == Some(code[..7] + [CheckDigit(Weighted(code[..7], 3, 1))])
  {
    hide Layout, Symbols, Weighted, Halves, ReadSymbols, CheckDigit, Zip, SetsOf, DigitsOf, Repeat;
    var sum := Weighted(code[..7], 3, 1);
    var check := CheckDigit(sum);
    var ls, ld, rs, rd := Repeat(A, 4), code[..4], Repeat(C, 4), code[4..7] + [check];
    HalvesOfLayout(Symbols(ls, ld), Symbols(rs, rd), 4);
    ReadOwnSymbols(ls, ld);
    ReadOwnSymbols(rs, rd);
    ZipParts(ls, ld);
    ZipParts(rs, rd);
    assert ld + rd == code[..7] + [check];
    WeightedOne(code[..7], check);
    CheckDigitCompletes(sum);
  }

  /** In an EAN-8 the check digit is at an odd place, where the weight is one. */
  lemma WeightedOne(code: seq<Digit>, d: Digit)
    requires |code| == 7
    ensures Weighted(code + [d], 3, 1) == Weighted(code, 3, 1) + d
  {
    WeightedAppend(code, d, 3, 1);
  }

  /** The sum of the digits at the even places, or at the odd ones. */
  function SumAt(code: seq<Digit>, parity: nat): nat {
    if code == [] then 0
    else SumAt(code[..|code| - 1], parity) + (if (|code| - 1) % 2 == parity then code[|code| - 1] else 0)
  }

  lemma {:induction false} WeightedIs(code: seq<Digit>, even: nat, odd: nat)
    ensures Weighted(code, even, odd) == even * SumAt(code, 0) + odd * SumAt(code, 1)
  {
    if code != [] {
      var init, last := code[..|code| - 1], code[|code| - 1];
      WeightedIs(init, even, odd);
      assert even * (SumAt(init, 0) + last) == even * SumAt(init, 0) + last * even;
      assert odd * (SumAt(init, 1) + last) == odd * SumAt(init, 1) + last * odd;
    }
  }

  /** What the last digit has to be: every other digit counts three times, from the second of 13 and the first of 8 on. */
  lemma CheckDigits(code: seq<Digit>)
    requires |code| >= 12
    ensures var x := Decode13(Ean13(code));
            x.Some? && |x.value| == 13 && (SumAt(code[..12], 0) + 3 * SumAt(code[..12], 1) + x.value[12]) % 10 == 0
    ensures var x := Decode8(Ean8(code));
            x.Some? && |x.value| == 8 && (3 * SumAt(code[..7], 0) + SumAt(code[..7], 1) + x.value[7]) % 10 == 0
  {
    hide *;
    Decode13Encoded(code);
    Decode8Encoded(code);
    WeightedIs(code[..12], 1, 3);
    WeightedIs(code[..7], 3, 1);
    CheckDigitCompletes(Weighted(code[..12], 1, 3));
    CheckDigitCompletes(Weighted(code[..7], 3, 1));
  }

  // ----- the mark at the end -----

  predicate Bars(s: seq<Byte>) {
    forall i :: 0 <= i < |s| ==> s[i] <= 1
  }

  lemma PatternIsBars(s: Set, d: Digit)
    ensures Bars(Pattern(s, d))
  {
    Digits(d);
  }

  lemma BarsAppend(s: seq<Byte>, t: seq<Byte>)
    requires Bars(s) && Bars(t)
    ensures Bars(s + t)
  {
  }

  lemma {:induction false} SymbolsAreBars(sets: seq<Set>, digits: seq<Digit>)
    requires |sets| == |digits|
    ensures Bars(Symbols(sets, digits))
    decreases |digits|
  {
    hide Pattern;
    if digits != [] {
      var n := |digits| - 1;
      SymbolsAreBars(sets[..n], digits[..n]);
      PatternIsBars(sets[n], digits[n]);
    }
  }

  lemma {:induction false} MarkEnds(s: seq<Byte>, rest: seq<Byte>)
    requires Bars(s)
    ensures UpToMark(s + [0xFF] + rest) == s + [0xFF]
    decreases |s|
  {
    var data := s + [0xFF] + rest;
    if s != [] {
      MarkEnds(s[1..], rest);
      assert data[1..] == s[1..] + [0xFF] + rest;
      assert [s[0]] + (s[1..] + [0xFF]) == s + [0xFF];
    }
  }

  lemma LayoutEnds(left: seq<Byte>, right: seq<Byte>, rest: seq<Byte>)
    requires Bars(left) && Bars(right)
    ensures UpToMark(Layout(left, right) + rest) == Layout(left, right)
  {
    var s := Zeros(32) + Guard() + left + Center() + right + Guard() + Zeros(32);
    BarsAppend(Zeros(32), Guard());
    BarsAppend(Zeros(32) + Guard(), left);
    BarsAppend(Zeros(32) + Guard() + left, Center());
    BarsAppend(Zeros(32) + Guard() + left + Center(), right);
    BarsAppend(Zeros(32) + Guard() + left + Center() + right, Guard());
    BarsAppend(Zeros(32) + Guard() + left + Center() + right + Guard(), Zeros(32));
    MarkEnds(s, rest);
  }

  // ----- what may be entered -----

  /** The characters that are looked at: up to the terminating zero, and not more than 13. */
  function Text(rcode: seq<Byte>, n: nat): (t: seq<Byte>)
    ensures |t| <= n
    decreases n
  {
    if n == 0 || rcode == [] || rcode[0] == 0 then [] else [rcode[0]] + Text(rcode[1..], n - 1)
  }

  predicate AllDigits(t: seq<Byte>) {
    forall i :: 0 <= i < |t| ==> 48 <= t[i] <= 57
  }

  function CodeOf(t: seq<Byte>): (code: seq<Digit>)
    requires AllDigits(t)
    ensures |code| == |t|
  {
    seq(|t|, i requires 0 <= i < |t| => t[i] - 48)
  }

  predicate Accepted(t: seq<Byte>) {
    AllDigits(t) && |t| in {7, 8, 12, 13}
  }

  /** The bars for an accepted text. */
  function Encoded(t: seq<Byte>): seq<Byte>
    requires Accepted(t)
  {
    if |t| >= 12 then Ean13(CodeOf(t)) else Ean8(CodeOf(t))
  }

  /** The digits that the bars stand for: the check digit is computed, whether it was entered or not. */
  function Completed(t: seq<Byte>): seq<Digit>
    requires Accepted(t)
  {
    var code := CodeOf(t);
    if |t| >= 12 then code[..12] + [CheckDigit(Weighted(code[..12], 1, 3))]
    else code[..7] + [CheckDigit(Weighted(code[..7], 3, 1))]
  }

  /** A reader recovers the digits from the data, whatever follows the mark. */
  lemma DecodeEncoded(t: seq<Byte>, rest: seq<Byte>)
    requires Accepted(t)
    ensures Decode(Encoded(t) + rest) == Some(Completed(t)) && |Encoded(t)| <= 160
  {
    hide Decode13, Decode8, Layout, Symbols, Parity, Weighted, UpToMark, CheckDigit, Repeat, CodeOf;
    var code := CodeOf(t);
    if |t| >= 12 {
      var check := CheckDigit(Weighted(code[..12], 1, 3));
      SymbolsAreBars(Parity(code[0]), code[1..7]);
      SymbolsAreBars(Repeat(C, 6), code[7..12] + [check]);
      LayoutEnds(Symbols(Parity(code[0]), code[1..7]), Symbols(Repeat(C, 6), code[7..12] + [check]), rest);
      LayoutSize(Symbols(Parity(code[0]), code[1..7]), Symbols(Repeat(C, 6), code[7..12] + [check]));
      Decode13Encoded(code);
    } else {
      var check := CheckDigit(Weighted(code[..7], 3, 1));
      SymbolsAreBars(Repeat(A, 4), code[..4]);
      SymbolsAreBars(Repeat(C, 4), code[4..7] + [check]);
      LayoutEnds(Symbols(Repeat(A, 4), code[..4]), Symbols(Repeat(C, 4), code[4..7] + [check]), rest);
      LayoutSize(Symbols(Repeat(A, 4), code[..4]), Symbols(Repeat(C, 4), code[4..7] + [check]));
      Decode8Encoded(code);
    }
  }

  lemma LayoutSize(left: seq<Byte>, right: seq<Byte>)
    ensures |Layout(left, right)| == 76 + |left| + |right|
  {
  }

  // ----- the program -----

  class Reader {
    const BarcodeData: array<Byte>
    var BarcodeReadPos: nat
    var BarcodeCycleCount: int
    var BarcodeOut: nat

    /** The mark lies ahead of the reading position, so that reading stays inside the data. */
    ghost predicate Valid()
      reads this, BarcodeData
    {
      BarcodeData.Length == 256 && MarkAhead(BarcodeReadPos, BarcodeData[..])
    }

    /** `M157Power`. */
    constructor ()
      ensures Valid() && fresh(BarcodeData)
    {
      BarcodeData := new Byte[256](_ => 0);
      BarcodeReadPos, BarcodeCycleCount, BarcodeOut := 0, 0, 0;
      new;
      BarcodeData[0] := 0xFF;
      assert BarcodeData[..][0] == 0xFF;
    }

    /** The macro `BS`. */
    method Put(p: nat, x: Byte) returns (q: nat)
      requires p < BarcodeData.Length
      modifies BarcodeData
      ensures q == p + 1 && BarcodeData[..q] == old(BarcodeData[..p]) + [x]
    {
      BarcodeData[p] := x;
      q := p + 1;
    }

    /** One of the loops over `j`. */
    method PutAll(p: nat, xs: seq<Byte>) returns (q: nat)
      requires p + |xs| <= BarcodeData.Length
      modifies BarcodeData
      ensures q == p + |xs| && BarcodeData[..q] == old(BarcodeData[..p]) + xs
    {
      q := p;
      var j := 0;
      ghost var before := BarcodeData[..p];
      while j < |xs|
        invariant j <= |xs| && q == p + j && BarcodeData[..q] == before + xs[..j]
      {
        q := Put(q, xs[j]);
        assert xs[..j + 1] == xs[..j] + [xs[j]];
        j := j + 1;
      }
      assert xs[..|xs|] == xs;
    }

    /** A loop over digits, with the set chosen for each of them. */
    method PutSymbols(p: nat, sets: seq<Set>, digits: seq<Digit>) returns (q: nat)
      requires |sets| == |digits| && p + 7 * |digits| <= BarcodeData.Length
      modifies BarcodeData
      ensures q == p + 7 * |digits| && BarcodeData[..q] == old(BarcodeData[..p]) + Symbols(sets, digits)
    {
      hide Pattern;
      q := p;
      var i := 0;
      ghost var before := BarcodeData[..p];
      while i < |digits|
        invariant i <= |digits| && q == p + 7 * i && BarcodeData[..q] == before + Symbols(sets[..i], digits[..i])
      {
        q := PutAll(q, Pattern(sets[i], digits[i]));
        assert sets[..i + 1][..i] == sets[..i] && digits[..i + 1][..i] == digits[..i];
        i := i + 1;
      }
      assert sets[..|sets|] == sets && digits[..|digits|] == digits;
    }

    /** Reads the text; a character below '0' wraps to a large number. */
    method Enter(rcode: seq<Byte>) returns (ok: bool, code: seq<Digit>)
      ensures ok == AllDigits(Text(rcode, 13))
      ensures ok ==> code == CodeOf(Text(rcode, 13))
    {
      hide Text;
      code := [];
      ok := true;
      var i := 0;
      while i < 13
        invariant i <= 13 && i <= |rcode| && |code| == i && |Text(rcode, 13)| >= i
        invariant Text(rcode, 13)[i..] == Text(rcode[i..], 13 - i)
        invariant forall k :: 0 <= k < i ==> 48 <= Text(rcode, 13)[k] <= 57 && code[k] == Text(rcode, 13)[k] - 48
        decreases 13 - i
      {
        if i >= |rcode| || rcode[i] == 0 {
          TextEnds(rcode, i);
          break;
        }
        TextAt(rcode, i);
        var c := (rcode[i] as int - 48) % 0x100;
        if c > 9 {
          ok := false;
          return;
        }
        code := code + [c];
        i := i + 1;
      }
      assert |Text(rcode, 13)| == i;
    }

    /** `FCEUI_DatachSet`. */
    method Swipe(rcode: seq<Byte>) returns (result: nat)
      requires Valid()
      modifies this, BarcodeData
      ensures Valid()
      ensures result == if Accepted(Text(rcode, 13)) then 1 else 0
      ensures result == 0 ==> BarcodeData[..] == old(BarcodeData[..]) && BarcodeReadPos == old(BarcodeReadPos) && BarcodeOut == old(BarcodeOut)
      ensures result == 1 ==> BarcodeReadPos == 0 && BarcodeOut == 8 && BarcodeCycleCount == 0
      ensures result == 1 ==> Encoded(Text(rcode, 13)) <= BarcodeData[..]
      ensures result == 1 ==> Decode(BarcodeData[..]) == Some(Completed(Text(rcode, 13)))
    {
      hide Decode, Symbols, Parity, Weighted, CheckDigit, Text, CodeOf, Encoded, Completed, Center, Guard, Zeros, Repeat;
      ghost var t := Text(rcode, 13);
      var ok, code := Enter(rcode);
      if !ok || |code| !in {7, 8, 12, 13} {
        return 0;
      }
      var p := WriteCode(code, t);
      BarcodeReadPos, BarcodeOut, BarcodeCycleCount := 0, 8, 0;
      result := 1;
      assert BarcodeData[..] == BarcodeData[..p] + BarcodeData[p..];
      DecodeEncoded(t, BarcodeData[p..]);
      assert BarcodeData[..][p - 1] == 0xFF;
    }

    /** Quiet zones, guards and the part in between. */
    method WriteCode(code: seq<Digit>, ghost t: seq<Byte>) returns (p: nat)
      requires BarcodeData.Length == 256 && Accepted(t) && code == CodeOf(t) && |code| == |t|
      modifies BarcodeData
      ensures 0 < p <= 256 && BarcodeData[..p] == Encoded(t) && BarcodeData[p - 1] == 0xFF
    {
      hide Symbols, Parity, Weighted, CheckDigit, Text, CodeOf, Encoded, Center, Guard, Zeros, Repeat;
      p := PutAll(0, Zeros(32));
      p := PutAll(p, Guard());
      if |code| >= 12 {
        p := Body13(p, code);
      } else {
        p := Body8(p, code);
      }
      p := PutAll(p, Guard());
      p := PutAll(p, Zeros(32));
      p := Put(p, 0xFF);
      WholeCode(t, BarcodeData[..p]);
      assert BarcodeData[..p][p - 1] == 0xFF;
    }

    method Checksum13(code: seq<Digit>) returns (csum: nat)
      requires |code| >= 12
      ensures csum == Weighted(code[..12], 1, 3)
    {
      csum := 0;
      var i := 0;
      while i < 12
        invariant i <= 12 && csum == Weighted(code[..i], 1, 3)
      {
        assert code[..i + 1] == code[..i] + [code[i]];
        WeightedAppend(code[..i], code[i], 1, 3);
        csum := csum + (code[i] as nat) * (if i % 2 == 1 then 3 else 1);
        i := i + 1;
      }
      assert code[..i] == code[..12];
    }

    /** The part between the outer guards of an EAN-13. */
    method Body13(p: nat, code: seq<Digit>) returns (q: nat)
      requires |code| >= 12 && p <= 35 && BarcodeData.Length == 256
      modifies BarcodeData
      ensures q == p + 89
      ensures var check := CheckDigit(Weighted(code[..12], 1, 3));
              BarcodeData[..q] == old(BarcodeData[..p]) + Symbols(Parity(code[0]), code[1..7]) + Center()
                                  + Symbols(Repeat(C, 6), code[7..12] + [check])
    {
      hide Symbols, Parity, CheckDigit, Repeat, Center;
      q := PutSymbols(p, Parity(code[0]), code[1..7]);
      q := PutAll(q, Center());
      var csum := Checksum13(code);
      var check := CheckDigit(csum);
      q := PutSymbols(q, Repeat(C, 6), code[7..12] + [check]);
    }

    method Checksum8(code: seq<Digit>) returns (csum: nat)
      requires |code| >= 7
      ensures csum == Weighted(code[..7], 3, 1)
    {
      csum := 0;
      var i := 0;
      while i < 7
        invariant i <= 7 && csum == Weighted(code[..i], 3, 1)
      {
        assert code[..i + 1] == code[..i] + [code[i]];
        WeightedAppend(code[..i], code[i], 3, 1);
        csum := csum + (if i % 2 == 1 then code[i] as nat else (code[i] as nat) * 3);
        i := i + 1;
      }
      assert code[..i] == code[..7];
    }

    /** The part between the outer guards of an EAN-8. */
    method Body8(p: nat, code: seq<Digit>) returns (q: nat)
      requires |code| >= 7 && p <= 35 && BarcodeData.Length == 256
      modifies BarcodeData
      ensures q == p + 61
      ensures var check := CheckDigit(Weighted(code[..7], 3, 1));
              BarcodeData[..q] == old(BarcodeData[..p]) + Symbols(Repeat(A, 4), code[..4]) + Center()
                                  + Symbols(Repeat(C, 4), code[4..7] + [check])
    {
      hide Symbols, CheckDigit, Repeat, Center;
      var csum := Checksum8(code);
      var check := CheckDigit(csum);
      q := PutSymbols(p, Repeat(A, 4), code[..4]);
      q := PutAll(q, Center());
      q := PutSymbols(q, Repeat(C, 4), code[4..7] + [check]);
    }

    /** The part of `BarcodeIRQHook` that belongs to the reader: one bar for each thousand cycles. */
    method Tick(a: int)
      requires Valid()
      modifies this
      ensures Valid()
      ensures var total := old(BarcodeCycleCount) + a;
              var bar := BarcodeData[old(BarcodeReadPos)];
              if total < 1000 then
                BarcodeCycleCount == total && BarcodeReadPos == old(BarcodeReadPos) && BarcodeOut == old(BarcodeOut)
              else
                BarcodeCycleCount == total - 1000
                && BarcodeReadPos == old(BarcodeReadPos) + (if bar == 0xFF then 0 else 1)
                && BarcodeOut == if bar == 0 then 8 else if bar == 0xFF || bar == 1 then 0 else BarcodeOut
    {
      BarcodeCycleCount := BarcodeCycleCount + a;
      if BarcodeCycleCount >= 1000 {
        BarcodeCycleCount := BarcodeCycleCount - 1000;
        if BarcodeData[BarcodeReadPos] == 0xFF {
          BarcodeOut := 0;
        } else {
          var bar: nat := BarcodeData[BarcodeReadPos];
          BarcodeOut := 8 * (if bar % 2 == 0 then bar + 1 else bar - 1);
          BarcodeReadPos := BarcodeReadPos + 1;
        }
      }
    }
  }

  predicate MarkAhead(pos: nat, data: seq<Byte>) {
    exists k :: pos <= k < |data| && data[k] == 0xFF
  }

  lemma TextEnds(rcode: seq<Byte>, i: nat)
    requires i < 13 && i <= |rcode| && (i == |rcode| || rcode[i] == 0)
    requires |Text(rcode, 13)| >= i && Text(rcode, 13)[i..] == Text(rcode[i..], 13 - i)
    ensures |Text(rcode, 13)| == i
  {
    assert Text(rcode[i..], 13 - i) == [];
    assert |Text(rcode, 13)[i..]| == 0;
  }

  lemma TextAt(rcode: seq<Byte>, i: nat)
    requires i < 13 && i < |rcode| && rcode[i] != 0
    requires |Text(rcode, 13)| >= i && Text(rcode, 13)[i..] == Text(rcode[i..], 13 - i)
    ensures |Text(rcode, 13)| >= i + 1 && Text(rcode, 13)[i] == rcode[i]
    ensures Text(rcode, 13)[i + 1..] == Text(rcode[i + 1..], 13 - (i + 1))
  {
    var t := Text(rcode[i..], 13 - i);
    assert rcode[i..][1..] == rcode[i + 1..];
    assert t == [rcode[i]] + Text(rcode[i + 1..], 13 - (i + 1));
    assert Text(rcode, 13)[i..][0] == rcode[i];
    assert Text(rcode, 13)[i + 1..] == Text(rcode, 13)[i..][1..];
  }

  /** The pieces are written in the order of the layout. */
  lemma WholeCode(t: seq<Byte>, bars: seq<Byte>)
    requires Accepted(t)
    requires var code := CodeOf(t);
             bars == if |t| >= 12 then
                       Zeros(32) + Guard() + Symbols(Parity(code[0]), code[1..7]) + Center()
                       + Symbols(Repeat(C, 6), code[7..12] + [CheckDigit(Weighted(code[..12], 1, 3))])
                       + Guard() + Zeros(32) + [0xFF]
                     else
                       Zeros(32) + Guard() + Symbols(Repeat(A, 4), code[..4]) + Center()
                       + Symbols(Repeat(C, 4), code[4..7] + [CheckDigit(Weighted(code[..7], 3, 1))])
                       + Guard() + Zeros(32) + [0xFF]
    ensures bars == Encoded(t)
  {
    hide Symbols, Parity, Weighted, CheckDigit, Repeat, CodeOf, Zeros;
  }
}
