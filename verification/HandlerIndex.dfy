/**
 The compressed tables of memory handlers (fceux-am/src/fceu.cpp, lines 118-273): instead of a handler
 for each of 64K addresses, a short table of handlers and an index for each address, kept in bytes or,
 with at most sixteen handlers, in half bytes.
 */
module HandlerIndex {
  import opened Options

  type Byte = b: nat | b < 0x100

  const SPACE: nat := 0x1_0000

  // ----- the simple structure -----

  /** `SetReadHandler` on a plain array: the addresses from `start` to `end` get the handler. */
  function PlainSet<T>(plain: seq<T>, start: int, end: int, f: T): (r: seq<T>)
    requires |plain| == SPACE
    ensures |r| == SPACE
  {
    seq(SPACE, a requires 0 <= a < SPACE => if start <= a <= end then f else plain[a])
  }

  /** One registration; `PowerNES` begins with one for the whole space. */
  datatype Op<T> = Op(start: int, end: int, f: T)

  function PlainRun<T>(plain: seq<T>, ops: seq<Op<T>>): (r: seq<T>)
    requires |plain| == SPACE
    ensures |r| == SPACE
  {
    if ops == [] then plain
    else
      var op := ops[|ops| - 1];
      PlainSet(PlainRun(plain, ops[..|ops| - 1]), op.start, op.end, op.f)
  }

  // ----- the indexed structure -----

  datatype Table<T> = Table(entries: seq<T>, index: seq<nat>)

  predicate Distinct<T(==)>(s: seq<T>) {
    forall i, j :: 0 <= i < j < |s| ==> s[i] != s[j]
  }

  /** The handlers are a prefix without repetitions, and every address has one of them. */
  predicate Inv<T(==)>(t: Table<T>) {
    Distinct(t.entries) && |t.index| == SPACE && forall a :: 0 <= a < SPACE ==> t.index[a] < |t.entries|
  }

  function Look<T(==)>(t: Table<T>): (r: seq<T>)
    requires Inv(t)
    ensures |r| == SPACE
  {
    seq(SPACE, a requires 0 <= a < SPACE => t.entries[t.index[a]])
  }

  /** The place of `f` in the table, where it is put at the end if it is new and there is room. */
  function Register<T(==)>(entries: seq<T>, f: T, max: nat): (r: Option<(seq<T>, nat)>)
    requires Distinct(entries)
    ensures r.Some? ==> Distinct(r.value.0) && r.value.1 < |r.value.0| && r.value.0[r.value.1] == f && entries <= r.value.0
    ensures r.Some? <==> f in entries || |entries| < max
    ensures r.Some? ==> (set x | x in r.value.0) == (set x | x in entries) + {f}
  {
    var k := Find(entries, f, 0);
    if k < |entries| then Some((entries, k))
    else if |entries| < max then Some((entries + [f], |entries|))
    else None
  }

  function Find<T(==)>(entries: seq<T>, f: T, from: nat): (k: nat)
    requires from <= |entries| && f !in entries[..from]
    ensures from <= k <= |entries| && (k < |entries| ==> entries[k] == f) && (f in entries <==> k < |entries|)
    decreases |entries| - from
  {
    if from == |entries| then from
    else if entries[from] == f then from
    else
      assert entries[..from + 1] == entries[..from] + [entries[from]];
      Find(entries, f, from + 1)
  }

  function SetRange<T(==)>(t: Table<T>, op: Op<T>, max: nat): (r: Option<Table<T>>)
    requires Inv(t)
    ensures r.Some? ==> Inv(r.value)
  {
    match Register(t.entries, op.f, max)
    case None => None
    case Some(e) => Some(Table(e.0, PlainSet(t.index, op.start, op.end, e.1)))
  }

  function Run<T(==)>(t: Table<T>, ops: seq<Op<T>>, max: nat): (r: Option<Table<T>>)
    requires Inv(t)
    ensures r.Some? ==> Inv(r.value)
  {
    if ops == [] then Some(t)
    else
      match Run(t, ops[..|ops| - 1], max)
      case None => None
      case Some(t') => SetRange(t', ops[|ops| - 1], max)
  }

  /** Every handler that the operations mention. */
  function Handlers<T(==)>(ops: seq<Op<T>>): set<T> {
    set i | 0 <= i < |ops| :: ops[i].f
  }

  function Entries<T(==)>(t: Table<T>): set<T> {
    set x | x in t.entries
  }

  lemma {:induction false} DistinctSize<T>(s: seq<T>)
    requires Distinct(s)
    ensures |set x | x in s| == |s|
    decreases |s|
  {
    if s != [] {
      var n := |s| - 1;
      DistinctSize(s[..n]);
      assert (set x | x in s) == (set x | x in s[..n]) + {s[n]};
      assert s[n] !in s[..n];
    }
  }

  lemma SubsetSize<T>(a: set<T>, b: set<T>)
    requires a <= b
    ensures |a| <= |b|
  {
    assert b == a + (b - a);
  }

  lemma LookAfterSet<T>(t: Table<T>, op: Op<T>, max: nat)
    requires Inv(t) && SetRange(t, op, max).Some?
    ensures Look(SetRange(t, op, max).value) == PlainSet(Look(t), op.start, op.end, op.f)
    ensures forall a :: 0 <= a < SPACE ==>
              Look(SetRange(t, op, max).value)[a] == if op.start <= a <= op.end then op.f else Look(t)[a]
    ensures Entries(SetRange(t, op, max).value) == Entries(t) + {op.f}
  {
    hide Find;
    var t' := SetRange(t, op, max).value;
    forall a | 0 <= a < SPACE
      ensures Look(t')[a] == PlainSet(Look(t), op.start, op.end, op.f)[a]
    {
    }
  }

  /** The handler of the last registration that covers the address. */
  function LastHandler<T>(ops: seq<Op<T>>, a: nat, before: T): T {
    if ops == [] then before
    else if ops[|ops| - 1].start <= a <= ops[|ops| - 1].end then ops[|ops| - 1].f
    else LastHandler(ops[..|ops| - 1], a, before)
  }

  lemma {:induction false} PlainIsLast<T>(plain: seq<T>, ops: seq<Op<T>>, a: nat)
    requires |plain| == SPACE && a < SPACE
    ensures PlainRun(plain, ops)[a] == LastHandler(ops, a, plain[a])
    decreases |ops|
  {
    if ops != [] {
      PlainIsLast(plain, ops[..|ops| - 1], a);
    }
  }

  lemma HandlersAppend<T>(ops: seq<Op<T>>)
    requires ops != []
    ensures Handlers(ops) == Handlers(ops[..|ops| - 1]) + {ops[|ops| - 1].f}
  {
    var n := |ops| - 1;
    forall x | x in Handlers(ops)
      ensures x in Handlers(ops[..n]) + {ops[n].f}
    {
      var i :| 0 <= i < |ops| && ops[i].f == x;
      if i < n {
        assert ops[..n][i].f == x;
      }
    }
    forall x | x in Handlers(ops[..n])
      ensures x in Handlers(ops)
    {
      var i :| 0 <= i < n && ops[..n][i].f == x;
      assert ops[i].f == x;
    }
  }

  /**
   From a filled table, any sequence of registrations succeeds exactly when there are at most `max`
   different handlers in all, and then every address has the handler that the plain array has.
   */
  lemma {:induction false} IndexedIsPlain<T>(t: Table<T>, ops: seq<Op<T>>, max: nat)
    requires Inv(t) && |t.entries| <= max
    ensures Run(t, ops, max).Some? <==> |Entries(t) + Handlers(ops)| <= max
    ensures Run(t, ops, max).Some? ==>
              Look(Run(t, ops, max).value) == PlainRun(Look(t), ops) && Entries(Run(t, ops, max).value) == Entries(t) + Handlers(ops)
    decreases |ops|
  {
    hide Look, PlainSet, Inv, SetRange;
    InvDistinct(t);
    if ops == [] {
      assert Entries(t) + Handlers(ops) == Entries(t);
    } else {
      var init, op := ops[..|ops| - 1], ops[|ops| - 1];
      IndexedIsPlain(t, init, max);
      HandlersAppend(ops);
      var before, after := Entries(t) + Handlers(init), Entries(t) + Handlers(ops);
      assert after == before + {op.f};
      SubsetSize(before, after);
      if Run(t, init, max).Some? {
        var t1 := Run(t, init, max).value;
        InvDistinct(t1);
        SetSucceeds(t1, op, max);
        assert op.f !in before ==> |after| == |before| + 1;
        assert op.f in before ==> after == before;
        if SetRange(t1, op, max).Some? {
          LookAfterSet(t1, op, max);
        }
      }
    }
  }

  lemma InvDistinct<T>(t: Table<T>)
    requires Inv(t)
    ensures Distinct(t.entries) && |Entries(t)| == |t.entries|
  {
    DistinctSize(t.entries);
  }

  lemma SetSucceeds<T>(t: Table<T>, op: Op<T>, max: nat)
    requires Inv(t)
    ensures SetRange(t, op, max).Some? <==> op.f in Entries(t) || |t.entries| < max
  {
  }

  /**
   The first call of `PowerNES` covers all addresses.  On a table with nothing in it that makes every
   address ready; a first call that left out addresses would give those the same handler unasked.
   */
  lemma FirstFill<T>(index: seq<nat>, start: int, end: int, f: T, max: nat)
    requires |index| == SPACE && (forall a :: 0 <= a < SPACE ==> index[a] == 0) && max > 0
    ensures Register([], f, max) == Some(([f], 0))
    ensures var t := Table([f], PlainSet(index, start, end, 0));
            Inv(t) && Look(t) == seq(SPACE, _ => f)
  {
    assert Find([], f, 0) == 0;
    assert [] + [f] == [f];
    var t := Table([f], PlainSet(index, start, end, 0));
    assert Inv(t);
    assert forall a :: 0 <= a < SPACE ==> Look(t)[a] == f;
  }

  // ----- the program -----

  /** The handlers of an array that is filled from the front, with nulls behind. */
  function Taken<T>(s: seq<Option<T>>): (r: seq<T>)
    ensures |r| <= |s| && forall i :: 0 <= i < |r| ==> s[i] == Some(r[i])
    ensures |r| < |s| ==> s[|r|] == None
  {
    if s == [] || s[0] == None then [] else [s[0].value] + Taken(s[1..])
  }

  lemma {:induction false} TakenIs<T>(s: seq<Option<T>>, r: seq<T>)
    requires |r| <= |s| && (forall i :: 0 <= i < |r| ==> s[i] == Some(r[i])) && (|r| < |s| ==> s[|r|] == None)
    ensures Taken(s) == r
    decreases |s|
  {
    if r != [] {
      TakenIs(s[1..], r[1..]);
    }
  }

  /** Half a byte: the low one belongs to the even address. */
  function HalfOf(b: Byte, odd: bool): nat {
    if odd then b / 16 else b % 16
  }

  /** The index bytes as an index for each address. */
  function Unpacked(packed: bool, bytes: seq<Byte>): (r: seq<nat>)
    requires |bytes| == if packed then SPACE / 2 else SPACE
    ensures |r| == SPACE
  {
    seq<nat>(SPACE, a requires 0 <= a < SPACE => UnpackAt(packed, bytes, a))
  }

  function UnpackAt(packed: bool, bytes: seq<Byte>, a: nat): nat
    requires |bytes| == (if packed then SPACE / 2 else SPACE) && a < SPACE
  {
    if packed then HalfOf(bytes[a / 2], a % 2 == 1) else bytes[a]
  }

  /** `FUNC_IDX_MAX` handlers and their indices; reading and writing have one such table each. */
  class HandlerTable<T(==)> {
    const packed: bool
    const handlers: array<Option<T>>
    const indices: array<Byte>
    const fallback: T

    function Max(): nat {
      if packed then 16 else 256
    }

    ghost predicate Valid()
      reads handlers, indices
    {
      && handlers.Length == Max() && indices.Length == (if packed then SPACE / 2 else SPACE)
      && Distinct(Taken(handlers[..])) && forall i :: |Taken(handlers[..])| <= i < handlers.Length ==> handlers[i] == None
    }

    ghost function View(): Table<T>
      reads handlers, indices
      requires Valid()
    {
      Table(Taken(handlers[..]), Unpacked(packed, indices[..]))
    }

    constructor (packed: bool, fallback: T)
      ensures Valid() && fresh(handlers) && fresh(indices) && Taken(handlers[..]) == []
    {
      this.packed := packed;
      this.fallback := fallback;
      handlers := new Option<T>[if packed then 16 else 256](_ => None);
      indices := new Byte[if packed then 0x8000 else 0x1_0000](_ => 0);
      new;
      TakenIs(handlers[..], []);
    }

    /** `RegisterARead`: -1 stands for the failed assertion. */
    method Add(f: T) returns (i: int)
      requires Valid()
      modifies handlers
      ensures Valid()
      ensures match Register(old(Taken(handlers[..])), f, Max())
              case None => i == -1 && handlers[..] == old(handlers[..])
              case Some(e) => i == e.1 && Taken(handlers[..]) == e.0
    {
      hide Register, Find;
      ghost var taken := Taken(handlers[..]);
      RegisterIs(taken, f, Max());
      i := 0;
      while i < handlers.Length
        invariant 0 <= i <= |taken| && handlers[..] == old(handlers[..])
        invariant forall k :: 0 <= k < i ==> taken[k] != f
      {
        if handlers[i] == None {
          FindAt(taken, f, i);
          handlers[i] := Some(f);
          TakenIs(handlers[..], taken + [f]);
        }
        if handlers[i] == Some(f) {
          FindAt(taken, f, i);
          return;
        }
        i := i + 1;
      }
      FindAt(taken, f, |taken|);
      i := -1;
    }

    /** `GetIdx`. */
    method GetIdx(addr: nat) returns (i: nat)
      requires Valid() && addr < SPACE
      ensures i == UnpackAt(packed, indices[..], addr) && i < 256
    {
      if packed {
        i := indices[addr / 2];
        if addr % 2 == 1 {
          i := i / 16;
        } else {
          i := i % 16;
        }
      } else {
        i := indices[addr];
      }
    }

    /** `SetIdx`. */
    method SetIdx(addr: nat, i: nat)
      requires Valid() && addr < SPACE && i < Max()
      modifies indices
      ensures Valid()
      ensures forall a: nat :: a < SPACE ==>
                UnpackAt(packed, indices[..], a) == if a == addr then i else UnpackAt(packed, old(indices[..]), a)
    {
      hide HalfOf, Taken, Distinct;
      if packed {
        SetHalfByte(addr, i);
      } else {
        indices[addr] := i;
      }
    }

    /** The half-byte form of `SetIdx`. */
    method SetHalfByte(addr: nat, i: nat)
      requires packed && indices.Length == SPACE / 2 && addr < SPACE && i < 16
      modifies indices
      ensures forall a: nat :: a < SPACE ==>
                UnpackAt(true, indices[..], a) == if a == addr then i else UnpackAt(true, old(indices[..]), a)
    {
      hide HalfOf, UnpackAt;
      ghost var before := indices[..];
      var b := Merge(indices[addr / 2], addr % 2 == 1, i);
      indices[addr / 2] := b;
      PackedSet(before, indices[..], addr, i);
    }

    /** The masks of `SetIdx`: one half is cleared, and the index put into it. */
    static method Merge(previous: Byte, odd: bool, i: nat) returns (r: Byte)
      requires i < 16
      ensures HalfOf(r, odd) == i && HalfOf(r, !odd) == HalfOf(previous, !odd)
    {
      if odd {
        r := previous % 16 + 16 * i;
      } else {
        r := previous - previous % 16 + i;
      }
    }

    /** `GetReadHandler`. */
    method Get(a: nat) returns (h: T)
      requires Valid() && Inv(View()) && a < SPACE
      ensures h == Look(View())[a]
    {
      var i := GetIdx(a);
      assert View().index[a] == i;
      h := handlers[i].value;
    }

    /** `SetReadHandler`; a null handler stands for the fallback. */
    method Set(start: int, end: int, func: Option<T>) returns (ok: bool)
      requires Valid() && 0 <= start && end < SPACE
      modifies handlers, indices
      ensures Valid()
      ensures var f := match func case None => fallback case Some(f) => f;
              match Register(old(Taken(handlers[..])), f, Max())
              case None => !ok && handlers[..] == old(handlers[..]) && indices[..] == old(indices[..])
              case Some(e) => ok && View() == Table(e.0, PlainSet(old(View().index), start, end, e.1))
    {
      var f := match func case None => fallback case Some(f) => f;
      ghost var index := View().index;
      var idx := Add(f);
      if idx < 0 {
        return false;
      }
      Fill(start, end, idx);
      ok := true;
      FilledIndex(index, View().index, start, end, idx);
    }

    /** The loop of `SetReadHandler`, from the end down. */
    method Fill(start: int, end: int, idx: nat)
      requires Valid() && 0 <= start && end < SPACE && idx < Max()
      modifies indices
      ensures Valid()
      ensures forall a: nat :: a < SPACE ==>
                UnpackAt(packed, indices[..], a) == if start <= a <= end then idx else UnpackAt(packed, old(indices[..]), a)
    {
      hide Taken, UnpackAt, Distinct;
      ghost var before := indices[..];
      var x := end;
      while x >= start
        invariant x == end || start - 1 <= x < end
        invariant Valid()
        invariant forall a: nat :: a < SPACE ==>
                    UnpackAt(packed, indices[..], a) == if x < a <= end then idx else UnpackAt(packed, before, a)
      {
        SetIdx(x, idx);
        x := x - 1;
      }
    }
  }

  lemma FilledIndex(before: seq<nat>, after: seq<nat>, start: int, end: int, idx: nat)
    requires |before| == |after| == SPACE
    requires forall a: nat :: a < SPACE ==> after[a] == if start <= a <= end then idx else before[a]
    ensures after == PlainSet(before, start, end, idx)
  {
  }

  lemma RegisterIs<T>(taken: seq<T>, f: T, max: nat)
    requires Distinct(taken)
    ensures Register(taken, f, max)
            == var i := Find(taken, f, 0);
               if i < |taken| then Some((taken, i)) else if |taken| < max then Some((taken + [f], |taken|)) else None
  {
  }

  lemma FindAt<T>(taken: seq<T>, f: T, k: nat)
    requires k <= |taken| && (forall i :: 0 <= i < k ==> taken[i] != f) && (k < |taken| ==> taken[k] == f)
    ensures Find(taken, f, 0) == k
  {
    FindFrom(taken, f, 0, k);
  }

  lemma {:induction false} FindFrom<T>(taken: seq<T>, f: T, from: nat, k: nat)
    requires from <= k <= |taken| && (forall i :: 0 <= i < k ==> taken[i] != f) && (k < |taken| ==> taken[k] == f)
    ensures f !in taken[..from] && Find(taken, f, from) == k
    decreases k - from
  {
    if from < k {
      FindFrom(taken, f, from + 1, k);
    }
  }

  lemma PackedSet(before: seq<Byte>, after: seq<Byte>, addr: nat, i: nat)
    requires |before| == |after| == SPACE / 2 && addr < SPACE
    requires HalfOf(after[addr / 2], addr % 2 == 1) == i
    requires HalfOf(after[addr / 2], !(addr % 2 == 1)) == HalfOf(before[addr / 2], !(addr % 2 == 1))
    requires forall k :: 0 <= k < SPACE / 2 && k != addr / 2 ==> after[k] == before[k]
    ensures forall a: nat :: a < SPACE ==> UnpackAt(true, after, a) == if a == addr then i else UnpackAt(true, before, a)
  {
    hide HalfOf;
    forall a: nat | a < SPACE
      ensures UnpackAt(true, after, a) == if a == addr then i else UnpackAt(true, before, a)
    {
      if a / 2 == addr / 2 && a != addr {
        assert (a % 2 == 1) == (addr % 2 == 0);
      }
    }
  }
}
