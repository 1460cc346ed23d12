/**
 The accounting of processor time (fceux-am/src/x6502.cpp, lines 28-76, 324-342 and 396-501).

 Time is paid in: a run is given so many cycles, and instructions, interrupts, memory accesses by direct
 memory access and a shortcut for spinning programs spend them.  The instructions themselves are not
 part of this model; each may spend any number of further cycles.
 */
module CpuTime {

  /** The rows of `CycTable`. */
  function CycleRow(high: nat): (row: seq<nat>) {
    match high
    case 0 => [7, 6, 2, 8, 3, 3, 5, 5, 3, 2, 2, 2, 4, 4, 6, 6]
    case 1 => [2, 5, 2, 8, 4, 4, 6, 6, 2, 4, 2, 7, 4, 4, 7, 7]
    case 2 => [6, 6, 2, 8, 3, 3, 5, 5, 4, 2, 2, 2, 4, 4, 6, 6]
    case 3 => [2, 5, 2, 8, 4, 4, 6, 6, 2, 4, 2, 7, 4, 4, 7, 7]
    case 4 => [6, 6, 2, 8, 3, 3, 5, 5, 3, 2, 2, 2, 3, 4, 6, 6]
    case 5 => [2, 5, 2, 8, 4, 4, 6, 6, 2, 4, 2, 7, 4, 4, 7, 7]
    case 6 => [6, 6, 2, 8, 3, 3, 5, 5, 4, 2, 2, 2, 5, 4, 6, 6]
    case 7 => [2, 5, 2, 8, 4, 4, 6, 6, 2, 4, 2, 7, 4, 4, 7, 7]
    case 8 => [2, 6, 2, 6, 3, 3, 3, 3, 2, 2, 2, 2, 4, 4, 4, 4]
    case 9 => [2, 6, 2, 6, 4, 4, 4, 4, 2, 5, 2, 5, 5, 5, 5, 5]
    case 10 => [2, 6, 2, 6, 3, 3, 3, 3, 2, 2, 2, 2, 4, 4, 4, 4]
    case 11 => [2, 5, 2, 5, 4, 4, 4, 4, 2, 4, 2, 4, 4, 4, 4, 4]
    case 12 => [2, 6, 2, 8, 3, 3, 5, 5, 2, 2, 2, 2, 4, 4, 6, 6]
    case 13 => [2, 5, 2, 8, 4, 4, 6, 6, 2, 4, 2, 7, 4, 4, 7, 7]
    case 14 => [2, 6, 3, 8, 3, 3, 5, 5, 2, 2, 2, 2, 4, 4, 6, 6]
    case _ => [2, 5, 2, 8, 4, 4, 6, 6, 2, 4, 2, 7, 4, 4, 7, 7]
  }

  predicate RowOk(row: seq<nat>) {
    && |row| == 16
    && 2 <= row[0] <= 8 && 2 <= row[1] <= 8 && 2 <= row[2] <= 8 && 2 <= row[3] <= 8
    && 2 <= row[4] <= 8 && 2 <= row[5] <= 8 && 2 <= row[6] <= 8 && 2 <= row[7] <= 8
    && 2 <= row[8] <= 8 && 2 <= row[9] <= 8 && 2 <= row[10] <= 8 && 2 <= row[11] <= 8
    && 2 <= row[12] <= 8 && 2 <= row[13] <= 8 && 2 <= row[14] <= 8 && 2 <= row[15] <= 8
  }

  lemma RowsOk0(high: nat)
    requires 0 <= high < 4
    ensures RowOk(CycleRow(high))
  {
  }

  lemma RowsOk1(high: nat)
    requires 4 <= high < 8
    ensures RowOk(CycleRow(high))
  {
  }

  lemma RowsOk2(high: nat)
    requires 8 <= high < 12
    ensures RowOk(CycleRow(high))
  {
  }

  lemma RowsOk3(high: nat)
    requires 12 <= high < 16
    ensures RowOk(CycleRow(high))
  {
  }

  lemma RowsOk(high: nat)
    requires high < 16
    ensures RowOk(CycleRow(high))
  {
    hide CycleRow, RowOk;
    if high < 4 {
      RowsOk0(high);
    } else if high < 8 {
      RowsOk1(high);
    } else if high < 12 {
      RowsOk2(high);
    } else {
      RowsOk3(high);
    }
  }

  lemma EntryOk(row: seq<nat>, low: nat)
    requires RowOk(row) && low < 16
    ensures |row| == 16 && 2 <= row[low] <= 8
  {
  }

  /** Every instruction takes time: from two to eight cycles. */
  function Cycles(opcode: nat): (n: nat)
    requires opcode < 256
    ensures 2 <= n <= 8
  {
    RowsOk(opcode / 16);
    EntryOk(CycleRow(opcode / 16), opcode % 16);
    CycleRow(opcode / 16)[opcode % 16]
  }

  /**
   The counters; `mapped` and `heard` are the sums of what the mapper's hook and the sound hook were
   called with.
   */
  datatype Clock = Clock(count: int, tcount: int, timestamp: int, soundtimestamp: int, mapped: int, heard: int)

  /** `ADDCYC`. */
  function Add(t: Clock, x: nat, overclocking: bool): Clock {
    t.(count := t.count - 48 * x, tcount := t.tcount + x, timestamp := t.timestamp + x,
       soundtimestamp := if overclocking then t.soundtimestamp else t.soundtimestamp + x)
  }

  /** What the rest of the machine does in one turn of the main loop. */
  datatype Turn = Turn(
    irqlow: bool,          // an interrupt is pending
    irqCycles: nat,        // 7 if it is taken, 0 for a reset or a masked one
    opcode: nat,
    hookCycles: nat,       // spent inside the hooks, by direct memory access
    bodyCycles: nat,       // spent by the instruction beyond the table
    spins: bool)           // the instruction jumps to itself

  predicate TurnOk(u: Turn) {
    u.opcode < 256 && u.irqCycles in {0, 7}
  }

  /** The part of a turn before the early return: the interrupt. */
  function Interrupt(t: Clock, u: Turn, overclocking: bool): Clock {
    if u.irqlow then Add(t, u.irqCycles, overclocking) else t
  }

  /** The hooks are told what has been spent since they were last called. */
  function Hooks(t: Clock, overclocking: bool): Clock {
    t.(tcount := 0, mapped := t.mapped + t.tcount, heard := if overclocking then t.heard else t.heard + t.tcount)
  }

  /** The rest of a turn. */
  function Instruction(t: Clock, u: Turn, overclocking: bool): Clock
    requires TurnOk(u)
  {
    var fetched := Hooks(Add(t, Cycles(u.opcode), overclocking), overclocking);
    var done := Add(Add(fetched, u.hookCycles, overclocking), u.bodyCycles, overclocking);
    if u.spins && done.count > 0 then Add(done, done.count / 48, overclocking) else done
  }

  /** The main loop; `turns(i)` is what happens in its turn `i`. */
  function Loop(t: Clock, turns: nat -> Turn, i: nat, overclocking: bool): (r: (Clock, nat))
    requires forall k: nat :: TurnOk(turns(k))
    decreases t.count
  {
    if t.count <= 0 then (t, i)
    else
      var t1 := Interrupt(t, turns(i), overclocking);
      if turns(i).irqlow && t1.count <= 0 then (t1, i + 1)
      else
        InstructionSpends(t1, turns(i), overclocking);
        Loop(Instruction(t1, turns(i), overclocking), turns, i + 1, overclocking)
  }

  /** `X6502_Run`, and the number of turns it took. */
  function Run(t: Clock, cycles: int, pal: bool, turns: nat -> Turn, overclocking: bool): (Clock, nat)
    requires forall k: nat :: TurnOk(turns(k))
  {
    Loop(t.(count := t.count + cycles * (if pal then 15 else 16)), turns, 0, overclocking)
  }

  lemma InstructionSpends(t: Clock, u: Turn, overclocking: bool)
    requires TurnOk(u)
    ensures Instruction(t, u, overclocking).count <= t.count - 96
  {
    hide Cycles;
  }

  // ----- conservation -----

  /** Time already spent and time still to be spent, in units of 1/48 cycle. */
  function Total(t: Clock): int {
    48 * t.timestamp + t.count
  }

  /** Cycles of which no hook has been told. */
  function Untold(t: Clock): int {
    t.timestamp - t.mapped - t.tcount
  }

  /** The clocks that go together, with the sound hook off while overclocking. */
  ghost predicate Together(t: Clock, r: Clock, overclocking: bool) {
    && Total(r) == Total(t) && Untold(r) == Untold(t) && r.timestamp >= t.timestamp
    && r.soundtimestamp - t.soundtimestamp == (if overclocking then 0 else r.timestamp - t.timestamp)
    && r.heard - t.heard == (if overclocking then 0 else r.mapped - t.mapped)
  }

  lemma AddTogether(t: Clock, x: nat, overclocking: bool)
    ensures Together(t, Add(t, x, overclocking), overclocking)
  {
  }

  lemma InstructionTogether(t: Clock, u: Turn, overclocking: bool)
    requires TurnOk(u)
    ensures Together(t, Instruction(t, u, overclocking), overclocking)
  {
    hide Cycles;
  }

  lemma {:induction false} LoopTogether(t: Clock, turns: nat -> Turn, i: nat, overclocking: bool)
    requires forall k: nat :: TurnOk(turns(k))
    ensures var r := Loop(t, turns, i, overclocking);
            Together(t, r.0, overclocking) && r.0.count <= 0 && r.1 >= i && (r.1 - i) * 48 <= (if t.count > 0 then t.count + 47 else 0)
    decreases t.count
  {
    hide Instruction;
    if t.count > 0 {
      AddTogether(t, turns(i).irqCycles, overclocking);
      var t1 := Interrupt(t, turns(i), overclocking);
      if !(turns(i).irqlow && t1.count <= 0) {
        InstructionSpends(t1, turns(i), overclocking);
        InstructionTogether(t1, turns(i), overclocking);
        LoopTogether(Instruction(t1, turns(i), overclocking), turns, i + 1, overclocking);
      }
    }
  }

  /**
   Whatever the instructions do, a run pays out exactly what it was given, 15 or 16 units for each cycle
   asked for; the hooks are told of every cycle once; and the run ends, with nothing left to spend.
   */
  lemma TimeIsConserved(t: Clock, cycles: nat, pal: bool, turns: nat -> Turn, overclocking: bool)
    requires forall k: nat :: TurnOk(turns(k))
    ensures var r := Run(t, cycles, pal, turns, overclocking).0;
            && Total(r) == Total(t) + cycles * (if pal then 15 else 16)
            && (r.mapped + r.tcount) - (t.mapped + t.tcount) == r.timestamp - t.timestamp
            && r.soundtimestamp - t.soundtimestamp == (if overclocking then 0 else r.timestamp - t.timestamp)
            && r.heard - t.heard == (if overclocking then 0 else r.mapped - t.mapped)
            && r.count <= 0
  {
    LoopTogether(t.(count := t.count + cycles * (if pal then 15 else 16)), turns, 0, overclocking);
  }

  /** A sequence of runs, each with its own turns. */
  datatype Request = Request(cycles: nat, pal: bool, turns: nat -> Turn, overclocking: bool)

  function Asked(rs: seq<Request>): nat {
    if rs == [] then 0 else Asked(rs[..|rs| - 1]) + rs[|rs| - 1].cycles * (if rs[|rs| - 1].pal then 15 else 16)
  }

  function RunAll(t: Clock, rs: seq<Request>): Clock
    requires forall j :: 0 <= j < |rs| ==> forall k: nat :: TurnOk(rs[j].turns(k))
  {
    if rs == [] then t
    else
      var last := rs[|rs| - 1];
      Run(RunAll(t, rs[..|rs| - 1]), last.cycles, last.pal, last.turns, last.overclocking).0
  }

  /** Over any sequence of runs nothing is lost: an overdraft of one run is taken from the next. */
  lemma {:induction false} TimeIsConservedOverRuns(t: Clock, rs: seq<Request>)
    requires forall j :: 0 <= j < |rs| ==> forall k: nat :: TurnOk(rs[j].turns(k))
    ensures Total(RunAll(t, rs)) == Total(t) + Asked(rs)
    ensures Untold(RunAll(t, rs)) == Untold(t)
    decreases |rs|
  {
    hide Run;
    if rs != [] {
      var last := rs[|rs| - 1];
      TimeIsConservedOverRuns(t, rs[..|rs| - 1]);
      TimeIsConserved(RunAll(t, rs[..|rs| - 1]), last.cycles, last.pal, last.turns, last.overclocking);
    }
  }

  /** Runs that begin without an overdraft last at least as long as was asked for, also for the sound. */
  lemma LongEnough(t: Clock, rs: seq<Request>)
    requires forall j :: 0 <= j < |rs| ==> !rs[j].overclocking && forall k: nat :: TurnOk(rs[j].turns(k))
    requires t.count == 0 && rs != []
    ensures 48 * (RunAll(t, rs).soundtimestamp - t.soundtimestamp) >= Asked(rs)
  {
    TimeIsConservedOverRuns(t, rs);
    SoundIsTime(t, rs);
  }

  lemma {:induction false} SoundIsTime(t: Clock, rs: seq<Request>)
    requires forall j :: 0 <= j < |rs| ==> !rs[j].overclocking && forall k: nat :: TurnOk(rs[j].turns(k))
    ensures RunAll(t, rs).soundtimestamp - t.soundtimestamp == RunAll(t, rs).timestamp - t.timestamp
    ensures rs != [] ==> RunAll(t, rs).count <= 0
    decreases |rs|
  {
    hide Run;
    if rs != [] {
      var last := rs[|rs| - 1];
      SoundIsTime(t, rs[..|rs| - 1]);
      TimeIsConserved(RunAll(t, rs[..|rs| - 1]), last.cycles, last.pal, last.turns, last.overclocking);
    }
  }

  /** A spinning program uses up the run: less than a cycle is left. */
  lemma SpinningUsesUp(t: Clock, u: Turn, overclocking: bool)
    requires TurnOk(u) && u.spins
    ensures Instruction(t, u, overclocking).count < 48
  {
    hide Cycles;
  }

  // ----- the program -----

  class Cpu {
    var count: int
    var tcount: int
    var timestamp: int
    var soundtimestamp: int
    ghost var mapped: int
    ghost var heard: int

    ghost function View(): Clock
      reads this
    {
      Clock(count, tcount, timestamp, soundtimestamp, mapped, heard)
    }

    /** `X6502_Power`. */
    constructor ()
      ensures View() == Clock(0, 0, 0, 0, 0, 0)
    {
      count, tcount, timestamp, soundtimestamp, mapped, heard := 0, 0, 0, 0, 0, 0;
    }

    method AddCyc(x: nat, overclocking: bool)
      modifies this`count, this`tcount, this`timestamp, this`soundtimestamp
      ensures View() == Add(old(View()), x, overclocking)
    {
      tcount := tcount + x;
      count := count - x * 48;
      timestamp := timestamp + x;
      if !overclocking {
        soundtimestamp := soundtimestamp + x;
      }
    }

    /** `X6502_Run`. */
    method RunFor(cycles: int, pal: bool, turns: nat -> Turn, overclocking: bool)
      requires forall k: nat :: TurnOk(turns(k))
      modifies this
      ensures View() == Run(old(View()), cycles, pal, turns, overclocking).0
    {
      hide Cycles, Add;
      count := count + cycles * (if pal then 15 else 16);
      ghost var start := View();
      var i := 0;
      while count > 0
        invariant Loop(View(), turns, i, overclocking) == Loop(start, turns, 0, overclocking)
        decreases count
      {
        var u := turns(i);
        ghost var t := View();
        if u.irqlow {
          AddCyc(u.irqCycles, overclocking);
          AddSpends(t, u.irqCycles, overclocking);
          if count <= 0 {
            return;
          }
        }
        ghost var t1 := View();
        InstructionSpends(t1, u, overclocking);
        OneInstruction(u, overclocking);
        i := i + 1;
      }
    }

    /** Fetch, hooks, execution, and the shortcut for a jump to itself. */
    method OneInstruction(u: Turn, overclocking: bool)
      requires TurnOk(u)
      modifies this
      ensures View() == Instruction(old(View()), u, overclocking)
    {
      hide Cycles;
      AddCyc(Cycles(u.opcode), overclocking);
      var temp := tcount;
      tcount := 0;
      mapped := mapped + temp;
      if !overclocking {
        heard := heard + temp;
      }
      AddCyc(u.hookCycles, overclocking);
      AddCyc(u.bodyCycles, overclocking);
      if u.spins && count > 0 {
        AddCyc(count / 48, overclocking);
      }
    }
  }

  lemma AddSpends(t: Clock, x: nat, overclocking: bool)
    ensures Add(t, x, overclocking).count <= t.count
  {
  }
}
