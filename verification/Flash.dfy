/**
 The self-flashing cartridge of mapper 111 (fceux-am/src/boards/cheapocabra.cpp, lines 61-270).

 The program drives the chip as a state machine, one write at a time.  The specification reads the whole
 list of writes with a small grammar of commands, and says of every byte what the commands made of it.
 */
module Flash {
  import opened Bits

  type Byte = b: nat | b < 0x100

  const SIZE: nat := 0x8_0000

  type Address = a: nat | a < SIZE

  /** A write to the chip: the whole address, bank included, and the data. */
  datatype Write = Write(addr: Address, v: Byte)

  // ----- the chip -----

  datatype Mode = Ready | Command | ByteWrite | Erase

  datatype Chip = Chip(rom: seq<Byte>, mode: Mode, sequence: Byte, id: bool)

  predicate Sized(c: Chip) {
    |c.rom| == SIZE
  }

  function CommandAddress(w: Write): nat {
    w.addr % 0x8000
  }

  function EraseSector(rom: seq<Byte>, addr: Address): (r: seq<Byte>)
    requires |rom| == SIZE
    ensures |r| == SIZE
  {
    var sector := addr - addr % 0x1000;
    seq(SIZE, i requires 0 <= i < SIZE => if sector <= i < sector + 0x1000 then 0xFF else rom[i])
  }

  function EraseAll(): (r: seq<Byte>)
    ensures |r| == SIZE
  {
    seq(SIZE, _ => 0xFF)
  }

  function ProgramByte(rom: seq<Byte>, w: Write): (r: seq<Byte>)
    requires |rom| == SIZE
    ensures |r| == SIZE
  {
    rom[w.addr := And(rom[w.addr], w.v)]
  }

  /** `M111Flash`. */
  function Step(c: Chip, w: Write): (r: Chip)
    requires Sized(c)
    ensures Sized(r)
  {
    match c.mode
    case Ready =>
      if CommandAddress(w) == 0x5555 && w.v == 0xAA then c.(mode := Command, sequence := 0)
      else if w.v == 0xF0 then c.(id := false)
      else c
    case Command =>
      if c.sequence == 0 then
        if CommandAddress(w) == 0x2AAA && w.v == 0x55 then c.(sequence := 1) else c.(mode := Ready)
      else if c.sequence == 1 then
        if CommandAddress(w) == 0x5555 then
          var c0 := c.(sequence := 0);
          if w.v == 0xA0 then c0.(mode := ByteWrite)
          else if w.v == 0x80 then c0.(mode := Erase)
          else if w.v == 0x90 then c0.(id := true, mode := Ready)
          else if w.v == 0xF0 then c0.(id := false, mode := Ready)
          else c0.(mode := Ready)
        else c.(mode := Ready)
      else c.(mode := Ready)
    case ByteWrite => c.(rom := ProgramByte(c.rom, w), mode := Ready)
    case Erase =>
      if c.sequence == 0 then
        if CommandAddress(w) == 0x5555 && w.v == 0xAA then c.(sequence := 1) else c.(mode := Ready)
      else if c.sequence == 1 then
        if CommandAddress(w) == 0x2AAA && w.v == 0x55 then c.(sequence := 2) else c.(mode := Ready)
      else if c.sequence == 2 then
        if CommandAddress(w) == 0x5555 && w.v == 0x10 then c.(rom := EraseAll(), mode := Ready)
        else if w.v == 0x30 then c.(rom := EraseSector(c.rom, w.addr), mode := Ready)
        else c.(mode := Ready)
      else c.(mode := Ready)
  }

  function Run(c: Chip, ws: seq<Write>): (r: Chip)
    requires Sized(c)
    ensures Sized(r)
  {
    if ws == [] then c else Step(Run(c, ws[..|ws| - 1]), ws[|ws| - 1])
  }

  // ----- the commands -----

  datatype Action = Nothing | Program(w: Write) | WipeChip | WipeSector(addr: Address) | EnterId | LeaveId

  predicate Unlock1(w: Write) {
    CommandAddress(w) == 0x5555 && w.v == 0xAA
  }

  predicate Unlock2(w: Write) {
    CommandAddress(w) == 0x2AAA && w.v == 0x55
  }

  /** A command at the front of a list of writes: how many writes it takes, or that it is not complete yet. */
  datatype Scan = Partial | Done(n: nat, action: Action)

  /** The write that ends an erase command. */
  function WipeBy(w: Write): Action {
    if CommandAddress(w) == 0x5555 && w.v == 0x10 then WipeChip
    else if w.v == 0x30 then WipeSector(w.addr)
    else Nothing
  }

  /** The first command; a write that breaks a command off is swallowed with it. */
  function First(ws: seq<Write>): (s: Scan)
    requires ws != []
    ensures s.Done? ==> 0 < s.n <= |ws|
    ensures s.Partial? ==> |ws| < 6
  {
    if !Unlock1(ws[0]) then Done(1, if ws[0].v == 0xF0 then LeaveId else Nothing)
    else if |ws| == 1 then Partial
    else if !Unlock2(ws[1]) then Done(2, Nothing)
    else if |ws| == 2 then Partial
    else if CommandAddress(ws[2]) != 0x5555 then Done(3, Nothing)
    else if ws[2].v == 0x90 then Done(3, EnterId)
    else if ws[2].v == 0xF0 then Done(3, LeaveId)
    else if ws[2].v == 0xA0 then if |ws| == 3 then Partial else Done(4, Program(ws[3]))
    else if ws[2].v != 0x80 then Done(3, Nothing)
    else if |ws| == 3 then Partial
    else if !Unlock1(ws[3]) then Done(4, Nothing)
    else if |ws| == 4 then Partial
    else if !Unlock2(ws[4]) then Done(5, Nothing)
    else if |ws| == 5 then Partial
    else Done(6, WipeBy(ws[5]))
  }

  /** The commands of a list of writes, and the writes of the last one if it is not complete. */
  function Parse(ws: seq<Write>): (r: (seq<Action>, seq<Write>))
    ensures r.1 == [] || First(r.1).Partial?
    decreases |ws|
  {
    if ws == [] then ([], [])
    else
      match First(ws)
      case Partial => ([], ws)
      case Done(n, action) =>
        var rest := Parse(ws[n..]);
        ([action] + rest.0, rest.1)
  }

  function Apply(rom: seq<Byte>, action: Action): (r: seq<Byte>)
    requires |rom| == SIZE
    ensures |r| == SIZE
  {
    match action
    case Program(w) => ProgramByte(rom, w)
    case WipeChip => EraseAll()
    case WipeSector(addr) => EraseSector(rom, addr)
    case _ => rom
  }

  function ApplyAll(rom: seq<Byte>, actions: seq<Action>): (r: seq<Byte>)
    requires |rom| == SIZE
    ensures |r| == SIZE
  {
    if actions == [] then rom else Apply(ApplyAll(rom, actions[..|actions| - 1]), actions[|actions| - 1])
  }

  /** Whether the identification is being read: the last command about it decides. */
  function IdAfter(id: bool, actions: seq<Action>): bool {
    if actions == [] then id
    else
      match actions[|actions| - 1]
      case EnterId => true
      case LeaveId => false
      case _ => IdAfter(id, actions[..|actions| - 1])
  }

  /** The registers of the chip say how far the incomplete command has got. */
  predicate WaitsFor(c: Chip, pending: seq<Write>) {
    match |pending|
    case 0 => c.mode.Ready?
    case 1 => c.mode.Command? && c.sequence == 0
    case 2 => c.mode.Command? && c.sequence == 1
    case 3 => if pending[2].v == 0xA0 then c.mode.ByteWrite? else c.mode.Erase? && c.sequence == 0
    case 4 => c.mode.Erase? && c.sequence == 1
    case _ => c.mode.Erase? && c.sequence == 2
  }

  // ----- the chip follows the grammar -----

  /** An incomplete command is completed, if at all, by the next write. */
  lemma FirstNext(ws: seq<Write>, w: Write)
    requires ws != [] && First(ws).Partial?
    ensures First(ws + [w]).Done? ==> First(ws + [w]).n == |ws| + 1
  {
  }

  lemma FirstStable(ws: seq<Write>, w: Write)
    requires ws != [] && First(ws).Done?
    ensures First(ws + [w]) == First(ws)
  {
  }

  lemma {:induction false} ParseNext(ws: seq<Write>, w: Write)
    ensures var r, s := Parse(ws), First(Parse(ws).1 + [w]);
            if s.Partial? then Parse(ws + [w]) == (r.0, r.1 + [w])
            else s.n == |r.1| + 1 && Parse(ws + [w]) == (r.0 + [s.action], [])
    decreases |ws|
  {
    hide First;
    if ws == [] {
      assert ws + [w] == [w] && Parse(ws) == ([], []);
      ParseOne(w);
      if First([w]).Done? {
        assert [] + [First([w]).action] == [First([w]).action];
      }
    } else {
      match First(ws) {
        case Partial =>
          FirstNext(ws, w);
          ParseFront(ws + [w]);
          var s := First(ws + [w]);
          if s.Done? {
            assert [] + [s.action] == [s.action];
          }
        case Done(n, action) =>
          FirstStable(ws, w);
          ParseNext(ws[n..], w);
          assert (ws + [w])[n..] == ws[n..] + [w];
          var rest := Parse(ws[n..] + [w]);
          assert Parse(ws + [w]) == ([action] + rest.0, rest.1);
          var s := First(Parse(ws).1 + [w]);
          if s.Done? {
            assert [action] + (Parse(ws[n..]).0 + [s.action]) == [action] + Parse(ws[n..]).0 + [s.action];
          }
      }
    }
  }

  lemma ParseFront(ws: seq<Write>)
    requires ws != []
    ensures First(ws).Partial? ==> Parse(ws) == ([], ws)
    ensures First(ws).Done? && First(ws).n == |ws| ==> Parse(ws) == ([First(ws).action], [])
  {
    hide First;
    if First(ws).Done? && First(ws).n == |ws| {
      assert ws[|ws|..] == [];
      assert [First(ws).action] + [] == [First(ws).action];
    }
  }

  lemma ParseOne(w: Write)
    ensures if First([w]).Partial? then Parse([w]) == ([], [w]) else Parse([w]) == ([First([w]).action], []) && First([w]).n == 1
  {
    ParseFront([w]);
  }

  /** One write moves the chip along the command, or does what the command says. */
  lemma StepFollows(c: Chip, pending: seq<Write>, w: Write)
    requires Sized(c) && WaitsFor(c, pending) && (pending == [] || First(pending).Partial?)
    ensures var r, s := Step(c, w), First(pending + [w]);
            if s.Partial? then WaitsFor(r, pending + [w]) && r.rom == c.rom && r.id == c.id
            else WaitsFor(r, []) && r.rom == Apply(c.rom, s.action) && r.id == IdAfter(c.id, [s.action])
  {
    hide ProgramByte, EraseSector, EraseAll;
    var ws := pending + [w];
    assert ws[|pending|] == w && ws[..|pending|] == pending;
  }

  /** For every list of writes to a chip that is ready: contents, identification mode and registers. */
  lemma {:induction false} FollowsCommands(c: Chip, ws: seq<Write>)
    requires Sized(c) && c.mode.Ready?
    ensures var r, p := Run(c, ws), Parse(ws);
            r.rom == ApplyAll(c.rom, p.0) && r.id == IdAfter(c.id, p.0) && WaitsFor(r, p.1)
    decreases |ws|
  {
    hide First, Step, Apply, WaitsFor;
    if ws == [] {
      assert WaitsFor(c, []) by { ReadyWaits(c); }
    } else {
      var init, w := ws[..|ws| - 1], ws[|ws| - 1];
      assert ws == init + [w];
      FollowsCommands(c, init);
      var p := Parse(init);
      StepFollows(Run(c, init), p.1, w);
      ParseNext(init, w);
      var s := First(p.1 + [w]);
      if s.Done? {
        AppendAction(c.rom, c.id, p.0, s.action);
      }
    }
  }

  lemma ReadyWaits(c: Chip)
    requires c.mode.Ready?
    ensures WaitsFor(c, [])
  {
  }

  lemma AppendAction(rom: seq<Byte>, id: bool, actions: seq<Action>, action: Action)
    requires |rom| == SIZE
    ensures ApplyAll(rom, actions + [action]) == Apply(ApplyAll(rom, actions), action)
    ensures IdAfter(id, actions + [action]) == IdAfter(IdAfter(id, actions), [action])
  {
    hide Apply;
    assert (actions + [action])[..|actions|] == actions;
    assert [action][..0] == [];
  }

  // ----- what happens to a byte -----

  predicate Wipes(action: Action, a: Address) {
    action.WipeChip? || (action.WipeSector? && action.addr / 0x1000 == a / 0x1000)
  }

  predicate Programs(action: Action, a: Address) {
    action.Program? && action.w.addr == a
  }

  /** The number of commands up to and including the last one that erased `a`; zero if there is none. */
  function LastWipe(actions: seq<Action>, a: Address): (n: nat)
    ensures n <= |actions|
    ensures n > 0 ==> Wipes(actions[n - 1], a)
    ensures forall j :: n <= j < |actions| ==> !Wipes(actions[j], a)
  {
    if actions == [] then 0
    else if Wipes(actions[|actions| - 1], a) then |actions|
    else LastWipe(actions[..|actions| - 1], a)
  }

  /** The bits that everything programmed at `a` from command `n` on has in common. */
  function Common(actions: seq<Action>, n: nat, a: Address): (v: Byte)
    requires n <= |actions|
    decreases |actions|
  {
    if n == |actions| then 0xFF
    else
      var last, before := actions[|actions| - 1], Common(actions[..|actions| - 1], n, a);
      if Programs(last, a) then And(before, last.w.v) else before
  }

  lemma ApplyAt(rom: seq<Byte>, action: Action, a: Address)
    requires |rom| == SIZE
    ensures Apply(rom, action)[a]
            == if Wipes(action, a) then 0xFF else if Programs(action, a) then And(rom[a], action.w.v) else rom[a]
  {
    hide And;
    if action.WipeSector? {
      SameSector(action.addr, a);
    }
  }

  lemma SameSector(s: Address, a: Address)
    ensures s - s % 0x1000 <= a < s - s % 0x1000 + 0x1000 <==> s / 0x1000 == a / 0x1000
  {
  }

  lemma {:induction false} AndAssociative(x: nat, y: nat, z: nat)
    ensures And(And(x, y), z) == And(x, And(y, z))
  {
    if x > 0 && y > 0 && z > 0 {
      AndAssociative(x / 2, y / 2, z / 2);
      AndParts(x, y);
      AndParts(y, z);
      var p, q := And(x, y), And(y, z);
      hide And;
      AndHalf(p, z);
      AndHalf(x, q);
    } else {
      AndZeroes(x, y, z);
    }
  }

  lemma AndZeroes(x: nat, y: nat, z: nat)
    requires x == 0 || y == 0 || z == 0
    ensures And(And(x, y), z) == And(x, And(y, z))
  {
  }

  lemma AndParts(x: nat, y: nat)
    ensures And(x, y) / 2 == And(x / 2, y / 2)
    ensures And(x, y) % 2 == if x % 2 == 1 && y % 2 == 1 then 1 else 0
  {
    AndHalf(x, y);
  }

  /**
   Every byte is what it was after the last erase that covered it, or at the beginning, and everything
   programmed there since: bits are cleared by programming and set by erasing only.
   */
  lemma {:induction false} ByteMeaning(rom: seq<Byte>, actions: seq<Action>, a: Address)
    requires |rom| == SIZE
    ensures var n := LastWipe(actions, a);
            ApplyAll(rom, actions)[a] == And(if n == 0 then rom[a] else 0xFF, Common(actions, n, a))
    decreases |actions|
  {
    hide And, Apply, Wipes;
    var n := LastWipe(actions, a);
    var base: Byte := if n == 0 then rom[a] else 0xFF;
    WidthPowers();
    AndAllOnes(base, 8);
    if actions != [] {
      var before, last := actions[..|actions| - 1], actions[|actions| - 1];
      ApplyAt(ApplyAll(rom, before), last, a);
      if !Wipes(last, a) {
        ByteMeaning(rom, before, a);
        if Programs(last, a) {
          AndAssociative(base, Common(before, n, a), last.w.v);
        }
      }
    }
  }

  /** The same for any list of writes to the chip. */
  lemma ByteHistory(c: Chip, ws: seq<Write>, a: Address)
    requires Sized(c) && c.mode.Ready?
    ensures var commands := Parse(ws).0;
            var n := LastWipe(commands, a);
            Run(c, ws).rom[a] == And(if n == 0 then c.rom[a] else 0xFF, Common(commands, n, a))
  {
    hide Parse, Run, And, LastWipe, Common, ApplyAll, WaitsFor, IdAfter;
    FollowsCommands(c, ws);
    ByteMeaning(c.rom, Parse(ws).0, a);
  }

  // ----- nothing but a whole command changes the memory -----

  lemma {:induction false} PendingIsSuffix(ws: seq<Write>)
    ensures |Parse(ws).1| <= |ws| && ws[|ws| - |Parse(ws).1|..] == Parse(ws).1
    decreases |ws|
  {
    hide First;
    if ws != [] {
      match First(ws) {
        case Partial => assert ws[0..] == ws;
        case Done(n, _) => PendingIsSuffix(ws[n..]);
      }
    }
  }

  predicate IsCommand(w: Write, v: Byte) {
    CommandAddress(w) == 0x5555 && w.v == v
  }

  /** The three writes that allow one byte to be programmed. */
  predicate UnlocksProgram(ws: seq<Write>) {
    |ws| == 3 && Unlock1(ws[0]) && Unlock2(ws[1]) && IsCommand(ws[2], 0xA0)
  }

  /** The five writes that allow an erase. */
  predicate UnlocksErase(ws: seq<Write>) {
    |ws| == 5 && Unlock1(ws[0]) && Unlock2(ws[1]) && IsCommand(ws[2], 0x80) && Unlock1(ws[3]) && Unlock2(ws[4])
  }

  function LastWrites(ws: seq<Write>, n: nat): seq<Write> {
    if n <= |ws| then ws[|ws| - n..] else ws
  }

  /**
   A write that changes the memory comes right after an unlocking sequence, and it programs one byte or
   erases.
   */
  lemma OnlyUnlocked(c: Chip, ws: seq<Write>, w: Write)
    requires Sized(c) && c.mode.Ready? && Run(c, ws + [w]).rom != Run(c, ws).rom
    ensures (UnlocksProgram(LastWrites(ws, 3)) && Run(c, ws + [w]).rom == ProgramByte(Run(c, ws).rom, w))
         || (UnlocksErase(LastWrites(ws, 5)) && Run(c, ws + [w]).rom == Apply(Run(c, ws).rom, WipeBy(w)))
  {
    var p := Parse(ws).1;
    hide Parse, Step, ProgramByte, EraseSector, EraseAll;
    assert (ws + [w])[..|ws|] == ws;
    FollowsCommands(c, ws);
    StepFollows(Run(c, ws), p, w);
    PendingIsSuffix(ws);
    CompletesWith(p, w);
  }

  /** Which incomplete commands a write can complete so that the memory changes. */
  lemma CompletesWith(p: seq<Write>, w: Write)
    requires p == [] || First(p).Partial?
    ensures var s := First(p + [w]);
            s.Done? && !s.action.Nothing? && !s.action.EnterId? && !s.action.LeaveId?
            ==> (UnlocksProgram(p) && s.action == Program(w)) || (UnlocksErase(p) && s.action == WipeBy(w))
  {
    assert (p + [w])[|p|] == w && (p + [w])[..|p|] == p;
  }

  /** The branches that the source marks as unreachable are. */
  lemma SequenceInRange(c: Chip, ws: seq<Write>)
    requires Sized(c) && c.mode.Ready?
    ensures var r := Run(c, ws);
            (r.mode.Command? ==> r.sequence < 2) && (r.mode.Erase? ==> r.sequence < 3)
  {
    hide First, Parse, Step, Apply, Run;
    FollowsCommands(c, ws);
  }

  // ----- what the processor sees -----

  /** The board: its register selects the bank. */
  datatype BoardState = BoardState(reg: Byte, chip: Chip)

  predicate IsRegister(a: nat) {
    0x5000 <= a <= 0x5FFF || 0x7000 <= a <= 0x7FFF
  }

  predicate IsFlash(a: nat) {
    0x8000 <= a <= 0xFFFF
  }

  /** The address in the flash of an address of the processor. */
  function Banked(reg: Byte, a: nat): Address {
    reg % 0x10 * 0x8000 + a % 0x8000
  }

  /**
   The sixteen banks are sixteen parts of the flash: a place has one bank and one address of the processor,
   every place has them, and neighbours stay neighbours.
   */
  lemma BanksApart(reg: Byte, a: nat, reg': Byte, a': nat)
    requires IsFlash(a) && IsFlash(a')
    ensures Banked(reg, a) == Banked(reg', a') <==> reg % 16 == reg' % 16 && a == a'
    ensures a < 0xFFFF ==> Banked(reg, a + 1) == Banked(reg, a) + 1
    ensures forall place: Address :: Banked(place / 0x8000, 0x8000 + place % 0x8000) == place
  {
    DivModUnique(Banked(reg, a), 0x8000, reg % 16, a - 0x8000);
    DivModUnique(Banked(reg', a'), 0x8000, reg' % 16, a' - 0x8000);
  }

  /** A write of the processor. */
  function BusStep(b: BoardState, a: nat, v: Byte): (r: BoardState)
    requires Sized(b.chip)
    ensures Sized(r.chip)
  {
    if IsRegister(a) then b.(reg := v)
    else if IsFlash(a) then b.(chip := Step(b.chip, Write(Banked(b.reg, a), v)))
    else b
  }

  function BusRun(b: BoardState, ws: seq<(nat, Byte)>): (r: BoardState)
    requires Sized(b.chip)
    ensures Sized(r.chip)
  {
    if ws == [] then b else BusStep(BusRun(b, ws[..|ws| - 1]), ws[|ws| - 1].0, ws[|ws| - 1].1)
  }

  /** The last value written to the register. */
  function LastReg(reg: Byte, ws: seq<(nat, Byte)>): Byte {
    if ws == [] then reg
    else if IsRegister(ws[|ws| - 1].0) then ws[|ws| - 1].1
    else LastReg(reg, ws[..|ws| - 1])
  }

  /** The writes that arrive at the chip, each in the bank selected at its time. */
  function Arriving(reg: Byte, ws: seq<(nat, Byte)>): seq<Write> {
    if ws == [] then []
    else
      var before, last := ws[..|ws| - 1], ws[|ws| - 1];
      if IsFlash(last.0) then Arriving(reg, before) + [Write(Banked(LastReg(reg, before), last.0), last.1)]
      else Arriving(reg, before)
  }

  lemma {:induction false} BusRunIs(b: BoardState, ws: seq<(nat, Byte)>)
    requires Sized(b.chip)
    ensures BusRun(b, ws) == BoardState(LastReg(b.reg, ws), Run(b.chip, Arriving(b.reg, ws)))
    decreases |ws|
  {
    hide Step;
    if ws != [] {
      var before, last := ws[..|ws| - 1], ws[|ws| - 1];
      BusRunIs(b, before);
      if IsFlash(last.0) {
        var w := Write(Banked(LastReg(b.reg, before), last.0), last.1);
        assert (Arriving(b.reg, before) + [w])[..|Arriving(b.reg, before)|] == Arriving(b.reg, before);
      }
    }
  }

  /** The identification: two bytes, repeated every 512 addresses. */
  function IdByte(a: nat): Byte {
    if a % 0x200 == 0 then 0xBF else if a % 0x200 == 1 then 0xB7 else 0xFF
  }

  /** A read from 0x8000 on. */
  function Seen(b: BoardState, a: nat): Byte
    requires Sized(b.chip)
  {
    if b.chip.id then IdByte(a) else b.chip.rom[Banked(b.reg, a)]
  }

  /**
   After any writes of the processor, a read returns the identification, if the last command about it
   entered that mode; otherwise, at the place that the last value of the register selects, what was there
   after the last erase, or at the beginning, and everything programmed there since.
   */
  lemma SeenByte(b: BoardState, ws: seq<(nat, Byte)>, a: nat)
    requires Sized(b.chip) && b.chip.mode.Ready?
    ensures var commands, place := Parse(Arriving(b.reg, ws)).0, Banked(LastReg(b.reg, ws), a);
            var n := LastWipe(commands, place);
            Seen(BusRun(b, ws), a)
            == if IdAfter(b.chip.id, commands) then IdByte(a)
               else And(if n == 0 then b.chip.rom[place] else 0xFF, Common(commands, n, place))
  {
    hide Parse, Run, BusRun, And, LastWipe, Common, ApplyAll, WaitsFor, IdAfter, Arriving, LastReg, Banked, IdByte;
    BusRunIs(b, ws);
    FollowsCommands(b.chip, Arriving(b.reg, ws));
    ByteHistory(b.chip, Arriving(b.reg, ws), Banked(LastReg(b.reg, ws), a));
  }

  // ----- the program -----

  /** The statics of the board, with flash memory fitted. */
  class Board {
    var reg: Byte
    var flash_mode: Mode
    var flash_sequence: Byte
    var flash_id: bool
    const FLASHROM: array<Byte>

    ghost predicate Valid() {
      FLASHROM.Length == SIZE
    }

    ghost function View(): Chip
      reads this, FLASHROM
    {
      Chip(FLASHROM[..], flash_mode, flash_sequence, flash_id)
    }

    ghost function State(): (b: BoardState)
      reads this, FLASHROM
    {
      BoardState(reg, View())
    }

    /** `Mapper111_Init` fills the flash with copies of the cartridge's ROM, and `M111Power` sets the registers. */
    constructor (rom: seq<Byte>)
      requires |rom| > 0
      ensures Valid() && fresh(FLASHROM) && reg == 0xFF
      ensures View().mode.Ready? && !View().id && View().sequence == 0
      ensures forall i :: 0 <= i < SIZE ==> FLASHROM[i] == rom[i % |rom|]
    {
      reg, flash_mode, flash_sequence, flash_id := 0xFF, Ready, 0, false;
      FLASHROM := new Byte[SIZE](_ => 0);
      new;
      var w, r := 0, 0;
      while w < SIZE
        invariant w <= SIZE && r == w % |rom|
        invariant forall i :: 0 <= i < w ==> FLASHROM[i] == rom[i % |rom|]
        modifies FLASHROM
      {
        FLASHROM[w] := rom[r];
        NextIndex(w, |rom|);
        w, r := w + 1, r + 1;
        if r >= |rom| {
          r := 0;
        }
      }
    }

    /** A write of the processor, by the handlers that `M111Power` sets. */
    method Poke(a: nat, v: Byte)
      requires Valid()
      modifies this, FLASHROM
      ensures State() == BusStep(old(State()), a, v)
    {
      if IsRegister(a) {
        WriteRegister(a, v);
      } else if IsFlash(a) {
        WriteFlash(a, v);
      }
    }

    /** `M111Write`: the board's register is at two ranges of addresses. */
    method WriteRegister(a: nat, v: Byte)
      requires Valid()
      modifies this`reg
      ensures reg == if IsRegister(a) then v else old(reg)
    {
      if 0x5000 <= a <= 0x5FFF || 0x7000 <= a <= 0x7FFF {
        reg := v;
      }
    }

    /** `M111Flash`. */
    method WriteFlash(a: nat, v: Byte)
      requires Valid()
      modifies this`flash_mode, this`flash_sequence, this`flash_id, FLASHROM
      ensures View() == if IsFlash(a) then Step(old(View()), Write(Banked(reg, a), v)) else old(View())
    {
      hide And;
      if a < 0x8000 || a > 0xFFFF {
        return;
      }
      var flash_addr := reg % 0x10 * 0x8000 + a % 0x8000;
      var command_addr := flash_addr % 0x8000;
      match flash_mode {
        case Ready =>
          if command_addr == 0x5555 && v == 0xAA {
            flash_mode, flash_sequence := Command, 0;
          } else if v == 0xF0 {
            flash_id := false;
          }
        case Command =>
          if flash_sequence == 0 {
            if command_addr == 0x2AAA && v == 0x55 {
              flash_sequence := 1;
            } else {
              flash_mode := Ready;
            }
          } else if flash_sequence == 1 {
            if command_addr == 0x5555 {
              flash_sequence := 0;
              if v == 0xA0 {
                flash_mode := ByteWrite;
              } else if v == 0x80 {
                flash_mode := Erase;
              } else if v == 0x90 {
                flash_id, flash_mode := true, Ready;
              } else if v == 0xF0 {
                flash_id, flash_mode := false, Ready;
              } else {
                flash_mode := Ready;
              }
            } else {
              flash_mode := Ready;
            }
          } else {
            flash_mode := Ready;
          }
        case ByteWrite =>
          FLASHROM[flash_addr] := And(FLASHROM[flash_addr], v);
          flash_mode := Ready;
        case Erase =>
          if flash_sequence == 0 {
            if command_addr == 0x5555 && v == 0xAA {
              flash_sequence := 1;
            } else {
              flash_mode := Ready;
            }
          } else if flash_sequence == 1 {
            if command_addr == 0x2AAA && v == 0x55 {
              flash_sequence := 2;
            } else {
              flash_mode := Ready;
            }
          } else if flash_sequence == 2 {
            if command_addr == 0x5555 && v == 0x10 {
              Fill(0, SIZE);
              assert FLASHROM[..] == EraseAll();
            } else if v == 0x30 {
              var sector := flash_addr - flash_addr % 0x1000;
              SectorInside(flash_addr);
              Fill(sector, 0x1000);
              assert FLASHROM[..] == EraseSector(old(FLASHROM[..]), flash_addr);
            }
            flash_mode := Ready;
          } else {
            flash_mode := Ready;
          }
      }
    }

    /** `memset` with 0xFF. */
    method Fill(start: nat, n: nat)
      requires start + n <= FLASHROM.Length
      modifies FLASHROM
      ensures forall i :: 0 <= i < FLASHROM.Length ==> FLASHROM[i] == if start <= i < start + n then 0xFF else old(FLASHROM[i])
    {
      forall i | start <= i < start + n {
        FLASHROM[i] := 0xFF;
      }
    }

    /** What the processor reads from 0x8000 on: the identification, or the selected bank. */
    method Read(a: nat) returns (v: Byte)
      requires Valid() && IsFlash(a)
      ensures v == Seen(State(), a)
    {
      if flash_id {
        var aid := a % 0x200;
        v := match aid case 0 => 0xBF case 1 => 0xB7 case _ => 0xFF;
      } else {
        v := FLASHROM[reg % 0x10 * 0x8000 + a % 0x8000];
      }
    }
  }

  lemma SectorInside(a: Address)
    ensures a - a % 0x1000 + 0x1000 <= SIZE
  {
  }

  lemma NextIndex(w: nat, n: nat)
    requires n > 0
    ensures (w + 1) % n == if w % n + 1 == n then 0 else w % n + 1
  {
    if w % n + 1 == n {
      DivModUnique(w + 1, n, w / n + 1, 0);
    } else {
      DivModUnique(w + 1, n, w / n, w % n + 1);
    }
  }
}
