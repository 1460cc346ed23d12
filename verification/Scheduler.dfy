/**
 The threads of the multiprocessor kernel (am-kernels/kernels/thread-os/thread-os.c): a ring of tasks of
 which every processor runs its own, and a lock.
 */
module Scheduler {
  import opened Bits
  import opened Options

  // ----- the ring of tasks -----

  /** Processor `c` of `n` has a task among the `total` ones: the one with its own number, at least. */
  predicate HasTask(c: nat, n: nat, total: nat) {
    c < n && c < total
  }

  /** Task `i` belongs to this processor. */
  predicate Owns(c: nat, n: nat, i: nat)
    requires n > 0
  {
    i % n == c
  }

  /** The next task in the ring, as `main` links it. */
  function Follower(i: nat, total: nat): (j: nat)
    requires i < total
    ensures j < total
  {
    if i + 1 == total then 0 else i + 1
  }

  /** The first of the processor's tasks from `x` on; from the end of the ring it is the one with its own number. */
  function FirstOwn(c: nat, n: nat, total: nat, x: nat): (r: nat)
    requires HasTask(c, n, total) && x < total
    ensures r < total && Owns(c, n, r)
    decreases total - x
  {
    if Owns(c, n, x) then x
    else if x + 1 == total then (SmallMod(c, n); c)
    else FirstOwn(c, n, total, x + 1)
  }

  lemma SmallMod(c: nat, n: nat)
    requires c < n
    ensures c % n == c
  {
    DivModUnique(c, n, 0, c);
  }

  /** Which task comes after `i` on this processor. */
  function NextOwn(c: nat, n: nat, total: nat, i: nat): (r: nat)
    requires HasTask(c, n, total) && i < total
    ensures r < total && Owns(c, n, r)
  {
    FirstOwn(c, n, total, Follower(i, total))
  }

  /** How often the loop goes round from `x` on. */
  function Distance(c: nat, n: nat, total: nat, x: nat): (d: nat)
    requires HasTask(c, n, total) && x < total
    ensures d <= total - x + c
    ensures d == 0 <==> Owns(c, n, x)
    decreases total - x
  {
    if Owns(c, n, x) then 0 else if x + 1 == total then 1 + c else 1 + Distance(c, n, total, x + 1)
  }

  lemma {:induction false} FromFront(c: nat, n: nat, total: nat, x: nat)
    requires HasTask(c, n, total) && x <= c
    ensures FirstOwn(c, n, total, x) == c && Distance(c, n, total, x) == c - x
    decreases c - x
  {
    SmallMod(x, n);
    if x < c {
      FromFront(c, n, total, x + 1);
    }
  }

  /** One turn of the loop. */
  lemma RingStep(c: nat, n: nat, total: nat, x: nat)
    requires HasTask(c, n, total) && x < total && !Owns(c, n, x)
    ensures FirstOwn(c, n, total, Follower(x, total)) == FirstOwn(c, n, total, x)
    ensures Distance(c, n, total, Follower(x, total)) == Distance(c, n, total, x) - 1
  {
    if x + 1 == total {
      FromFront(c, n, total, 0);
    }
  }

  /** No task belongs to a processor with too high a number. */
  lemma OwnsNone(c: nat, n: nat, i: nat)
    requires n > 0 && i < c
    ensures !Owns(c, n, i)
  {
    ModAtMost(i, n);
  }

  lemma ModAtMost(i: nat, n: nat)
    requires n > 0
    ensures i % n <= i
  {
    if i < n {
      SmallMod(i, n);
    }
  }

  // ----- round robin -----

  /** Which task is current after `k` switches. */
  function After(c: nat, n: nat, total: nat, i: nat, k: nat): (r: nat)
    requires HasTask(c, n, total) && i < total
    ensures r < total && (k > 0 ==> Owns(c, n, r))
  {
    if k == 0 then i else NextOwn(c, n, total, After(c, n, total, i, k - 1))
  }

  /** From a task of the processor, the next one is `n` places on, or the first one. */
  lemma NextIsNth(c: nat, n: nat, total: nat, j: nat)
    requires HasTask(c, n, total) && c + j * n < total
    ensures NextOwn(c, n, total, c + j * n) == if c + (j + 1) * n < total then c + (j + 1) * n else c
  {
    var i := c + j * n;
    assert (j + 1) * n == j * n + n;
    if i + 1 == total {
      FromFront(c, n, total, 0);
    } else {
      SkipOthers(c, n, total, j, 1);
    }
  }

  /** The processor's tasks are `n` places apart. */
  lemma OwnEvery(c: nat, n: nat, j: nat, d: nat, x: nat)
    requires c < n && 0 < d <= n && x == c + j * n + d
    ensures Owns(c, n, x) <==> d == n
  {
    assert (j + 1) * n == j * n + n;
    if c + d < n {
      DivModUnique(x, n, j, c + d);
    } else {
      DivModUnique(x, n, j + 1, c + d - n);
    }
  }

  lemma {:induction false} SkipOthers(c: nat, n: nat, total: nat, j: nat, d: nat)
    requires HasTask(c, n, total) && 0 < d <= n && c + j * n + d < total
    ensures FirstOwn(c, n, total, c + j * n + d) == if c + j * n + n < total then c + j * n + n else c
    decreases n - d
  {
    var x := c + j * n + d;
    OwnEvery(c, n, j, d, x);
    hide Owns;
    if d < n {
      if x + 1 < total {
        SkipOthers(c, n, total, j, d + 1);
      }
    }
  }

  lemma {:induction false} AfterNth(c: nat, n: nat, total: nat, j: nat, k: nat)
    requires HasTask(c, n, total) && c + (j + k) * n < total
    ensures (j + k) * n >= j * n && After(c, n, total, c + j * n, k) == c + (j + k) * n
    decreases k
  {
    MulMonotone(j, j + k, n);
    if k > 0 {
      MulMonotone(j + k - 1, j + k, n);
      MulMonotone(j, j + k - 1, n);
      AfterNth(c, n, total, j, k - 1);
      NextIsNth(c, n, total, j + k - 1);
    }
  }

  lemma {:induction false} AfterPlus(c: nat, n: nat, total: nat, i: nat, k: nat, l: nat)
    requires HasTask(c, n, total) && i < total
    ensures After(c, n, total, i, k + l) == After(c, n, total, After(c, n, total, i, k), l)
    decreases l
  {
    if l > 0 {
      AfterPlus(c, n, total, i, k, l - 1);
    }
  }

  lemma AfterOne(c: nat, n: nat, total: nat, i: nat)
    requires HasTask(c, n, total) && i < total
    ensures After(c, n, total, i, 1) == NextOwn(c, n, total, i)
  {
    assert After(c, n, total, i, 0) == i;
  }

  /** The first task comes round again after at most as many switches as there are tasks. */
  lemma {:induction false} ComesToFirst(c: nat, n: nat, total: nat, i: nat, j: nat) returns (k: nat)
    requires HasTask(c, n, total) && i == c + j * n < total
    ensures After(c, n, total, i, k) == c && k <= total - i
    decreases total - i
  {
    NextIsNth(c, n, total, j);
    AfterOne(c, n, total, i);
    hide After, NextOwn;
    var next := i + n;
    assert c + (j + 1) * n == next;
    if next < total {
      var l := ComesToFirst(c, n, total, next, j + 1);
      AfterPlus(c, n, total, i, 1, l);
      k := 1 + l;
    } else {
      k := 1;
    }
  }

  lemma OwnIsNth(c: nat, n: nat, i: nat) returns (j: nat)
    requires n > 0 && Owns(c, n, i)
    ensures i == c + j * n
  {
    j := i / n;
    assert i == n * (i / n) + i % n;
  }

  /** From any of its tasks a processor gets to any other one in a bounded number of switches. */
  lemma RoundRobin(c: nat, n: nat, total: nat, s: nat, t: nat) returns (k: nat)
    requires HasTask(c, n, total) && s < total && t < total && Owns(c, n, s) && Owns(c, n, t)
    ensures After(c, n, total, s, k) == t && k <= total + t
  {
    var j := OwnIsNth(c, n, s);
    var m := OwnIsNth(c, n, t);
    var l := ComesToFirst(c, n, total, s, j);
    assert 0 * n == 0;
    AfterNth(c, n, total, 0, m);
    AfterPlus(c, n, total, s, l, m);
    MulAtLeast(n, m);
    k := l + m;
  }

  // ----- all interleavings -----

  /**
   Where a processor is: in a task, or at a step of `on_interrupt` (lines 47 to 52).  Each step reads or
   writes shared memory at most once.
   */
  datatype Phase = InTask | Entered | Moving | Testing | Leaving

  datatype Cpu<C> = Cpu(phase: Phase, current: Option<nat>, ctx: C)

  /** The shared state: the saved contexts of the tasks, and the processors with their `current`. */
  datatype State<C> = State(contexts: seq<C>, cpus: seq<Cpu<C>>)

  /** Processor `c` takes one step; `ctx` is the context with which an interrupt arrives. */
  function Step<C>(s: State<C>, c: nat, ctx: C): (r: State<C>)
    requires c < |s.cpus|
    requires |s.contexts| > 0 && (s.cpus[c].current.Some? ==> s.cpus[c].current.value < |s.contexts|)
    ensures |r.contexts| == |s.contexts| && |r.cpus| == |s.cpus|
  {
    var p := s.cpus[c];
    match p.phase
    case InTask => s.(cpus := s.cpus[c := p.(phase := Entered, ctx := ctx)])
    case Entered =>
      if p.current == None then s.(cpus := s.cpus[c := p.(phase := Moving, current := Some(0))])
      else
        State(s.contexts[p.current.value := p.ctx], s.cpus[c := p.(phase := Moving)])
    case Moving =>
      if p.current == None then s
      else s.(cpus := s.cpus[c := p.(phase := Testing, current := Some(Follower(p.current.value, |s.contexts|)))])
    case Testing =>
      if p.current == None then s
      else s.(cpus := s.cpus[c := p.(phase := if Owns(c, |s.cpus|, p.current.value) then Leaving else Moving)])
    case Leaving =>
      if p.current == None then s
      else s.(cpus := s.cpus[c := p.(phase := InTask, ctx := s.contexts[p.current.value])])
  }

  /** Outside the search loop, a processor's `current` is a task of its own. */
  ghost predicate CpuOk<C>(p: Cpu<C>, c: nat, n: nat, total: nat)
    requires n > 0
  {
    && (p.current.Some? ==> p.current.value < total)
    && (p.phase in {Moving, Testing, Leaving} ==> p.current.Some?)
    && (p.phase in {InTask, Entered, Leaving} && p.current.Some? ==> Owns(c, n, p.current.value))
  }

  ghost predicate Inv<C>(s: State<C>) {
    |s.contexts| > 0 && |s.cpus| > 0 && forall c :: 0 <= c < |s.cpus| ==> CpuOk(s.cpus[c], c, |s.cpus|, |s.contexts|)
  }

  lemma StepKeeps<C>(s: State<C>, c: nat, ctx: C)
    requires Inv(s) && c < |s.cpus|
    ensures |s.contexts| > 0 && (s.cpus[c].current.Some? ==> s.cpus[c].current.value < |s.contexts|)
    ensures CpuOk(s.cpus[c], c, |s.cpus|, |s.contexts|) && Inv(Step(s, c, ctx))
    ensures forall d :: 0 <= d < |s.cpus| && d != c ==> Step(s, c, ctx).cpus[d] == s.cpus[d]
  {
    hide Owns;
    if s.cpus[c].phase.Entered? {
      OwnsFirst(|s.cpus|);
    }
  }

  lemma OwnsFirst(n: nat)
    requires n > 0
    ensures Owns(0, n, 0)
  {
    SmallMod(0, n);
  }

  /** Any interleaving: which processor moves, and with which context an interrupt would arrive. */
  function Run<C>(s: State<C>, moves: seq<(nat, C)>): (r: State<C>)
    requires Inv(s) && forall i :: 0 <= i < |moves| ==> moves[i].0 < |s.cpus|
    ensures Inv(r) && |r.cpus| == |s.cpus| && |r.contexts| == |s.contexts|
    decreases |moves|
  {
    if moves == [] then s
    else
      StepKeeps(s, moves[0].0, moves[0].1);
      Run(Step(s, moves[0].0, moves[0].1), moves[1..])
  }

  /** In the loop of `on_interrupt`, where `current` passes over all the tasks. */
  predicate Searching<C>(p: Cpu<C>) {
    p.phase.Moving? || p.phase.Testing?
  }

  /**
   In every interleaving, when a task is current on two processors one of the two is in its search: two
   that are not have different tasks.
   */
  lemma {:induction false} NoTaskTwice<C>(s: State<C>, moves: seq<(nat, C)>, c: nat, d: nat)
    requires Inv(s) && (forall i :: 0 <= i < |moves| ==> moves[i].0 < |s.cpus|)
    requires c < |s.cpus| && d < |s.cpus| && c != d
    ensures var r := Run(s, moves);
            r.cpus[c].current == r.cpus[d].current != None ==> Searching(r.cpus[c]) || Searching(r.cpus[d])
  {
    hide Owns;
    var r := Run(s, moves);
    assert CpuOk(r.cpus[c], c, |r.cpus|, |r.contexts|) && CpuOk(r.cpus[d], d, |r.cpus|, |r.contexts|);
    if r.cpus[c].current == r.cpus[d].current != None {
      OneOwner(c, d, |r.cpus|, r.cpus[c].current.value);
    }
  }

  lemma OneOwner(c: nat, d: nat, n: nat, i: nat)
    requires n > 0 && c != d
    ensures !(Owns(c, n, i) && Owns(d, n, i))
  {
  }

  /** At the start, no processor has had an interrupt. */
  function Booted<C>(contexts: seq<C>, n: nat, ctx: C): (s: State<C>)
    requires |contexts| > 0 && n > 0
    ensures Inv(s)
  {
    State(contexts, seq(n, _ => Cpu(InTask, None, ctx)))
  }

  /**
   A task can be current on two processors: with two tasks and two processors, the first one is back in
   task 0 when the second one has its first interrupt and begins its search there.
   */
  lemma TaskTwiceInSearch<C>(contexts: seq<C>, ctx: C) returns (moves: seq<(nat, C)>)
    requires |contexts| == 2
    ensures forall i :: 0 <= i < |moves| ==> moves[i].0 < 2
    ensures var r := Run(Booted(contexts, 2, ctx), moves);
            && r.cpus[0].phase.InTask? && r.cpus[0].current == Some(0)
            && r.cpus[1].phase.Moving? && r.cpus[1].current == Some(0)
  {
    hide Inv, Step, Owns;
    var a, b := (0, ctx), (1, ctx);
    var s := Booted(contexts, 2, ctx);
    moves := [a, a, a, a, a, a, a, b, b];
    var s1 := FirstSteps(s, moves, a);
    FirstEntry(s, ctx);
    var s2 := FirstSteps(s1, moves[2..], a);
    LoopTurn(s1, ctx, 0);
    NotOwn(0, 2, 1);
    var s3 := FirstSteps(s2, moves[2..][2..], a);
    LoopTurn(s2, ctx, 1);
    OwnsFirst(2);
    LastSteps(s3, moves[2..][2..][2..], a, b);
  }

  lemma FirstEntry<C>(s: State<C>, ctx: C)
    requires Inv(s) && |s.contexts| == 2 && s.cpus == [Cpu(InTask, None, ctx), Cpu(InTask, None, ctx)]
    ensures Inv(Step(s, 0, ctx))
    ensures Step(Step(s, 0, ctx), 0, ctx).cpus == [Cpu(Moving, Some(0), ctx), Cpu(InTask, None, ctx)]
  {
    hide Inv;
    StepKeeps(s, 0, ctx);
  }

  lemma LoopTurn<C>(s: State<C>, ctx: C, x: nat)
    requires Inv(s) && |s.contexts| == 2 && x < 2 && s.cpus == [Cpu(Moving, Some(x), ctx), Cpu(InTask, None, ctx)]
    ensures Inv(Step(s, 0, ctx))
    ensures var y := Follower(x, 2);
            Step(Step(s, 0, ctx), 0, ctx).cpus
            == [Cpu(if Owns(0, 2, y) then Leaving else Moving, Some(y), ctx), Cpu(InTask, None, ctx)]
  {
    hide Inv, Owns;
    StepKeeps(s, 0, ctx);
  }

  lemma FirstSteps<C>(s: State<C>, moves: seq<(nat, C)>, a: (nat, C)) returns (r: State<C>)
    requires Inv(s) && |moves| >= 2 && moves[0] == a == moves[1] && a.0 < |s.cpus|
    requires forall i :: 0 <= i < |moves| ==> moves[i].0 < |s.cpus|
    ensures (s.cpus[a.0].current.Some? ==> s.cpus[a.0].current.value < |s.contexts|) && |s.contexts| > 0
    ensures Inv(Step(s, a.0, a.1))
    ensures var q := Step(s, a.0, a.1); q.cpus[a.0].current.Some? ==> q.cpus[a.0].current.value < |q.contexts|
    ensures r == Step(Step(s, a.0, a.1), a.0, a.1) && Inv(r)
    ensures |r.cpus| == |s.cpus| && |r.contexts| == |s.contexts| && Run(s, moves) == Run(r, moves[2..])
  {
    hide Inv, Step;
    StepKeeps(s, a.0, a.1);
    StepKeeps(Step(s, a.0, a.1), a.0, a.1);
    r := Step(Step(s, a.0, a.1), a.0, a.1);
    assert moves[1..][0] == a && moves[1..][1..] == moves[2..];
  }

  lemma LastSteps<C>(s: State<C>, moves: seq<(nat, C)>, a: (nat, C), b: (nat, C))
    requires Inv(s) && |s.cpus| == 2 && moves == [a, b, b] && a.0 == 0 && b.0 == 1
    requires s.cpus[0].phase.Leaving? && s.cpus[0].current == Some(0) && s.cpus[1].phase.InTask? && s.cpus[1].current == None
    ensures var r := Run(s, moves);
            && r.cpus[0].phase.InTask? && r.cpus[0].current == Some(0)
            && r.cpus[1].phase.Moving? && r.cpus[1].current == Some(0)
  {
    hide Owns, Inv;
    assert moves[1..] == [b, b];
    StepKeeps(s, 0, a.1);
    var s1 := Step(s, 0, a.1);
    var s2 := FirstSteps(s1, [b, b], b);
    assert [b, b][2..] == [];
  }

  /** The saved context of a task is written only by its processor, when it is interrupted in that task. */
  lemma OnlyOwnerSaves<C>(s: State<C>, c: nat, ctx: C, i: nat)
    requires Inv(s) && c < |s.cpus| && i < |s.contexts|
    ensures CpuOk(s.cpus[c], c, |s.cpus|, |s.contexts|)
    ensures Step(s, c, ctx).contexts[i] != s.contexts[i]
            ==> Owns(c, |s.cpus|, i) && s.cpus[c].phase.Entered? && s.cpus[c].current == Some(i)
                && Step(s, c, ctx).contexts[i] == s.cpus[c].ctx
  {
    hide Owns;
  }

  // ----- threads go on where they were interrupted -----

  /** Where the thread of task `i` is: on its processor, until its context has been saved, or in memory. */
  ghost function Thread<C>(s: State<C>, i: nat): C
    requires |s.cpus| > 0 && i < |s.contexts|
  {
    var p := s.cpus[i % |s.cpus|];
    if (p.phase.InTask? || p.phase.Entered?) && p.current == Some(i) then p.ctx else s.contexts[i]
  }

  /** An interrupt finds processor `c` in task `i`. */
  ghost predicate Interrupts<C>(s: State<C>, c: nat, i: nat)
    requires c < |s.cpus|
  {
    s.cpus[c].phase.InTask? && s.cpus[c].current == Some(i)
  }

  /** Nothing but an interrupt in the task itself moves its thread, and that moves it to the context of the interrupt. */
  lemma ThreadKept<C>(s: State<C>, c: nat, ctx: C, i: nat)
    requires Inv(s) && c < |s.cpus| && i < |s.contexts|
    ensures CpuOk(s.cpus[c], c, |s.cpus|, |s.contexts|)
    ensures Thread(Step(s, c, ctx), i) == if Interrupts(s, c, i) then ctx else Thread(s, i)
  {
    assert CpuOk(s.cpus[c], c, |s.cpus|, |s.contexts|);
  }

  /** The context of the last interrupt in task `i` during a run, or `k` if there is none. */
  ghost function LastInterrupt<C>(s: State<C>, moves: seq<(nat, C)>, i: nat, k: C): C
    requires Inv(s) && forall j :: 0 <= j < |moves| ==> moves[j].0 < |s.cpus|
    decreases |moves|
  {
    if moves == [] then k
    else
      var c, ctx := moves[0].0, moves[0].1;
      StepKeeps(s, c, ctx);
      LastInterrupt(Step(s, c, ctx), moves[1..], i, if Interrupts(s, c, i) then ctx else k)
  }

  lemma {:induction false} ThreadAfter<C>(s: State<C>, moves: seq<(nat, C)>, i: nat)
    requires Inv(s) && i < |s.contexts| && forall j :: 0 <= j < |moves| ==> moves[j].0 < |s.cpus|
    ensures Thread(Run(s, moves), i) == LastInterrupt(s, moves, i, Thread(s, i))
    decreases |moves|
  {
    hide Inv, Step, Thread, Interrupts;
    if moves != [] {
      var c, ctx := moves[0].0, moves[0].1;
      StepKeeps(s, c, ctx);
      ThreadKept(s, c, ctx, i);
      ThreadAfter(Step(s, c, ctx), moves[1..], i);
    }
  }

  /**
   From the start, in every interleaving: a processor that is in a task was given the context with which
   that task was last interrupted, or the task's first one; so no thread loses or repeats anything.
   */
  lemma ResumesWhereInterrupted<C>(contexts: seq<C>, n: nat, boot: C, moves: seq<(nat, C)>, c: nat, i: nat)
    requires 0 < n && c < n && i < |contexts| && forall j :: 0 <= j < |moves| ==> moves[j].0 < n
    ensures var s := Booted(contexts, n, boot);
            Interrupts(Run(s, moves), c, i) ==> Run(s, moves).cpus[c].ctx == LastInterrupt(s, moves, i, contexts[i])
  {
    hide Step, LastInterrupt, Run;
    var s := Booted(contexts, n, boot);
    ThreadAfter(s, moves, i);
    var r := Run(s, moves);
    assert CpuOk(r.cpus[c], c, |r.cpus|, |r.contexts|);
  }

  // ----- the search ends, and with the next task -----

  function Started<C>(p: Cpu<C>): nat {
    if p.current.Some? then p.current.value else 0
  }

  /** Which task the processor will be in when the interrupt is over. */
  ghost function Goal<C>(p: Cpu<C>, c: nat, n: nat, total: nat): (g: nat)
    requires HasTask(c, n, total) && CpuOk(p, c, n, total)
  {
    match p.phase
    case InTask => Started(p)
    case Entered => NextOwn(c, n, total, Started(p))
    case Moving => NextOwn(c, n, total, Started(p))
    case Testing => FirstOwn(c, n, total, Started(p))
    case Leaving => Started(p)
  }

  /** How many steps of its own the processor still needs. */
  ghost function Left<C>(p: Cpu<C>, c: nat, n: nat, total: nat): (l: nat)
    requires HasTask(c, n, total) && CpuOk(p, c, n, total)
    ensures l <= 4 * total + 4
  {
    match p.phase
    case InTask => 0
    case Entered => 2 * Distance(c, n, total, Follower(Started(p), total)) + 4
    case Moving => 2 * Distance(c, n, total, Follower(Started(p), total)) + 3
    case Testing => 2 * Distance(c, n, total, Started(p)) + 2
    case Leaving => 1
  }

  /**
   In a handler, every step of the processor brings it one step nearer to the end, and what task that will
   be does not change.  Other processors do not matter: their steps leave this one as it is.
   */
  lemma HandlerAdvances<C>(s: State<C>, c: nat, ctx: C)
    requires Inv(s) && c < |s.cpus| && c < |s.contexts| && !s.cpus[c].phase.InTask?
    ensures Inv(Step(s, c, ctx))
    ensures var n, total := |s.cpus|, |s.contexts|;
            var p, q := s.cpus[c], Step(s, c, ctx).cpus[c];
            && CpuOk(p, c, n, total) && CpuOk(q, c, n, total)
            && Left(q, c, n, total) == Left(p, c, n, total) - 1
            && Goal(q, c, n, total) == Goal(p, c, n, total)
    ensures forall d :: 0 <= d < |s.cpus| && d != c ==> Step(s, c, ctx).cpus[d] == s.cpus[d]
  {
    StepKeeps(s, c, ctx);
    var n, total := |s.cpus|, |s.contexts|;
    var p := s.cpus[c];
    var x := Started(p);
    if p.phase.Testing? {
      if !Owns(c, n, x) {
        RingStep(c, n, total, x);
      }
    }
    hide Owns, FirstOwn, Distance;
  }

  // ----- which processors leave the handler -----

  /** How many of the moves are the processor's own. */
  function Own<C>(moves: seq<(nat, C)>, c: nat): nat {
    if moves == [] then 0 else (if moves[0].0 == c then 1 else 0) + Own(moves[1..], c)
  }

  predicate Moves<C>(s: State<C>, moves: seq<(nat, C)>) {
    forall i :: 0 <= i < |moves| ==> moves[i].0 < |s.cpus|
  }

  /** After so many steps of its own the processor is back in a task, however the others move. */
  ghost predicate LeavesAfter<C(!new)>(s: State<C>, c: nat, k: nat)
    requires Inv(s) && c < |s.cpus|
  {
    forall moves: seq<(nat, C)> :: Moves(s, moves) && Own(moves, c) == k ==> Run(s, moves).cpus[c].phase.InTask?
  }

  /** A processor with a task has left the handler after `Left` steps of its own, and is in the one it was to find. */
  lemma {:induction false} Leaves<C>(s: State<C>, c: nat, moves: seq<(nat, C)>)
    requires Inv(s) && Moves(s, moves) && HasTask(c, |s.cpus|, |s.contexts|)
    requires CpuOk(s.cpus[c], c, |s.cpus|, |s.contexts|) && Own(moves, c) == Left(s.cpus[c], c, |s.cpus|, |s.contexts|)
    ensures var q := Run(s, moves).cpus[c];
            q.phase.InTask? && (s.cpus[c].phase.InTask? || q.current == Some(Goal(s.cpus[c], c, |s.cpus|, |s.contexts|)))
    decreases |moves|
  {
    hide Owns, Step, Left, Goal;
    LeftIsZero(s.cpus[c], c, |s.cpus|, |s.contexts|);
    if moves != [] {
      var d, ctx := moves[0].0, moves[0].1;
      StepKeeps(s, d, ctx);
      var s1 := Step(s, d, ctx);
      if d == c {
        HandlerAdvances(s, c, ctx);
      }
      AllOk(s1, c);
      LeftIsZero(s1.cpus[c], c, |s1.cpus|, |s1.contexts|);
      Leaves(s1, c, moves[1..]);
      if s1.cpus[c].phase.InTask? && d == c {
        LastStep(s, c, ctx);
        StaysInTask(s1, c, moves[1..]);
      }
    }
  }

  lemma LeftIsZero<C>(p: Cpu<C>, c: nat, n: nat, total: nat)
    requires HasTask(c, n, total) && CpuOk(p, c, n, total)
    ensures Left(p, c, n, total) == 0 <==> p.phase.InTask?
  {
    hide Owns, Distance;
  }

  /** The step that ends the handler. */
  lemma LastStep<C>(s: State<C>, c: nat, ctx: C)
    requires Inv(s) && HasTask(c, |s.cpus|, |s.contexts|) && CpuOk(s.cpus[c], c, |s.cpus|, |s.contexts|)
    requires !s.cpus[c].phase.InTask? && Step(s, c, ctx).cpus[c].phase.InTask?
    ensures Step(s, c, ctx).cpus[c].current == Some(Goal(s.cpus[c], c, |s.cpus|, |s.contexts|))
  {
    hide Owns;
  }

  /** Nobody else moves a processor. */
  lemma {:induction false} StaysInTask<C>(s: State<C>, c: nat, moves: seq<(nat, C)>)
    requires Inv(s) && c < |s.cpus| && Moves(s, moves) && Own(moves, c) == 0
    ensures Run(s, moves).cpus[c] == s.cpus[c]
    decreases |moves|
  {
    hide Inv, Step;
    if moves != [] {
      StepKeeps(s, moves[0].0, moves[0].1);
      StaysInTask(Step(s, moves[0].0, moves[0].1), c, moves[1..]);
    }
  }

  /** A processor without a task goes round for ever. */
  lemma {:induction false} NeverLeaves<C>(s: State<C>, c: nat, moves: seq<(nat, C)>)
    requires Inv(s) && c < |s.cpus| && Moves(s, moves) && |s.contexts| <= c && !s.cpus[c].phase.InTask?
    ensures !Run(s, moves).cpus[c].phase.InTask?
    decreases |moves|
  {
    hide Owns;
    if moves != [] {
      var d, ctx := moves[0].0, moves[0].1;
      StepKeeps(s, d, ctx);
      var p := s.cpus[c];
      assert CpuOk(p, c, |s.cpus|, |s.contexts|);
      if p.current.Some? {
        OwnsNone(c, |s.cpus|, p.current.value);
      }
      NeverLeaves(Step(s, d, ctx), c, moves[1..]);
    }
  }

  function Alone<C>(c: nat, ctx: C, k: nat): (moves: seq<(nat, C)>)
    ensures |moves| == k && forall i :: 0 <= i < k ==> moves[i].0 == c
  {
    seq(k, _ => (c, ctx))
  }

  lemma {:induction false} AloneOwn<C>(c: nat, moves: seq<(nat, C)>)
    requires forall i :: 0 <= i < |moves| ==> moves[i].0 == c
    ensures Own(moves, c) == |moves|
  {
    if moves != [] {
      AloneOwn(c, moves[1..]);
    }
  }

  /**
   A processor in `on_interrupt` gets back to a task after a finite number of steps of its own, the same
   however the others move, if and only if its number is below the number of tasks.
   */
  lemma EndsExactlyWhen<C(!new)>(s: State<C>, c: nat)
    requires Inv(s) && c < |s.cpus| && !s.cpus[c].phase.InTask?
    ensures (exists k: nat :: LeavesAfter(s, c, k)) <==> c < |s.contexts|
  {
    hide Inv, CpuOk, Left;
    if c < |s.contexts| {
      AllOk(s, c);
      var k := Left(s.cpus[c], c, |s.cpus|, |s.contexts|);
      forall moves: seq<(nat, C)> | Moves(s, moves) && Own(moves, c) == k
        ensures Run(s, moves).cpus[c].phase.InTask?
      {
        Leaves(s, c, moves);
      }
      assert LeavesAfter(s, c, k);
    } else if k: nat :| LeavesAfter(s, c, k) {
      var moves := Alone(c, s.cpus[c].ctx, k);
      AloneOwn(c, moves);
      NeverLeaves(s, c, moves);
      assert false;
    }
  }

  lemma AllOk<C>(s: State<C>, c: nat)
    requires Inv(s) && c < |s.cpus|
    ensures CpuOk(s.cpus[c], c, |s.cpus|, |s.contexts|)
  {
  }

  /** The five tasks of the kernel on six processors: the sixth one is lost with its first interrupt. */
  lemma SixthIsLost<C>(contexts: seq<C>, ctx: C, moves: seq<(nat, C)>)
    requires |contexts| == 5 && forall i :: 0 <= i < |moves| ==> moves[i].0 < 6
    ensures var s := Booted(contexts, 6, ctx);
            Own(moves, 5) > 0 ==> !Run(s, moves).cpus[5].phase.InTask?
  {
    LostOnce(Booted(contexts, 6, ctx), moves);
  }

  lemma {:induction false} LostOnce<C>(s: State<C>, moves: seq<(nat, C)>)
    requires Inv(s) && Moves(s, moves) && |s.cpus| == 6 && |s.contexts| == 5
    ensures Own(moves, 5) > 0 ==> !Run(s, moves).cpus[5].phase.InTask?
    decreases |moves|
  {
    hide Owns, Inv;
    if moves != [] {
      StepKeeps(s, moves[0].0, moves[0].1);
      var s1 := Step(s, moves[0].0, moves[0].1);
      if moves[0].0 == 5 {
        if s.cpus[5].phase.InTask? {
          NeverLeaves(s1, 5, moves[1..]);
        } else {
          NeverLeaves(s, 5, moves);
        }
      } else {
        LostOnce(s1, moves[1..]);
      }
    }
  }

  // ----- the lock -----

  /** What a thread is doing with the lock. */
  datatype Place = Outside | Trying | Inside

  datatype Lock = Lock(locked: int, threads: seq<Place>)

  /** One step of a thread: a call, one turn of `lock`, or `unlock`; each is one exchange at most. */
  function LockStep(l: Lock, t: nat): (r: Lock)
    requires t < |l.threads|
    ensures |r.threads| == |l.threads|
  {
    match l.threads[t]
    case Outside => l.(threads := l.threads[t := Trying])
    case Trying => if l.locked != 0 then l.(locked := 1) else Lock(1, l.threads[t := Inside])
    case Inside => Lock(0, l.threads[t := Outside])
  }

  /** The word is 1 exactly while a thread is inside, and then that is one thread. */
  ghost predicate LockInv(l: Lock) {
    && l.locked in {0, 1}
    && (l.locked == 1 <==> exists t :: 0 <= t < |l.threads| && l.threads[t].Inside?)
    && forall t, u :: 0 <= t < u < |l.threads| ==> !(l.threads[t].Inside? && l.threads[u].Inside?)
  }

  lemma LockStepKeeps(l: Lock, t: nat)
    requires LockInv(l) && t < |l.threads|
    ensures LockInv(LockStep(l, t))
  {
    var r := LockStep(l, t);
    match l.threads[t] {
      case Outside =>
        forall u | 0 <= u < |l.threads| && l.threads[u].Inside?
          ensures r.threads[u].Inside?
        {
        }
      case Trying =>
        if l.locked == 0 {
          assert r.threads[t].Inside?;
        } else {
          assert r == l;
        }
      case Inside =>
    }
  }

  function LockRun(l: Lock, moves: seq<nat>): (r: Lock)
    requires forall i :: 0 <= i < |moves| ==> moves[i] < |l.threads|
    ensures |r.threads| == |l.threads|
    decreases |moves|
  {
    if moves == [] then l else LockRun(LockStep(l, moves[0]), moves[1..])
  }

  /** In every interleaving at most one thread is between `lock` and `unlock`. */
  lemma {:induction false} MutualExclusion(l: Lock, moves: seq<nat>)
    requires LockInv(l) && forall i :: 0 <= i < |moves| ==> moves[i] < |l.threads|
    ensures LockInv(LockRun(l, moves))
    decreases |moves|
  {
    hide LockInv;
    if moves != [] {
      LockStepKeeps(l, moves[0]);
      MutualExclusion(LockStep(l, moves[0]), moves[1..]);
    }
  }

  /** When nobody is inside, the next thread that tries gets in. */
  lemma LockIsFree(l: Lock, t: nat)
    requires LockInv(l) && t < |l.threads| && l.threads[t].Trying?
    ensures LockStep(l, t).threads[t].Inside? <==> forall u :: 0 <= u < |l.threads| ==> !l.threads[u].Inside?
  {
  }

  // ----- the program -----

  const MAX_CPU: nat := 8

  /** The global data of the kernel, with contexts of any kind. */
  class Kernel<C(0)> {
    const next: array<nat>
    const contexts: array<C>
    const currents: array<Option<nat>>
    const n: nat

    ghost predicate Valid()
      reads next, contexts, currents
    {
      && (contexts as object) != (currents as object) && (contexts as object) != (next as object) && (currents as object) != (next as object)
      && next.Length == contexts.Length && 0 < contexts.Length && 0 < n <= MAX_CPU && currents.Length == MAX_CPU
      && (forall i :: 0 <= i < next.Length ==> next[i] == Follower(i, next.Length))
      && (forall c :: 0 <= c < n ==> currents[c] == None || (currents[c].value < next.Length && Owns(c, n, currents[c].value)))
    }

    /** `main`: the ring, with a fresh context for each task. */
    constructor (entries: seq<C>, n: nat)
      requires |entries| > 0 && 0 < n <= MAX_CPU
      ensures Valid() && this.n == n && contexts[..] == entries && fresh(next) && fresh(contexts) && fresh(currents)
      ensures forall c :: 0 <= c < MAX_CPU ==> currents[c] == None
    {
      hide Owns;
      this.n := n;
      next := new nat[|entries|](_ => 0);
      contexts := new C[|entries|];
      currents := new Option<nat>[MAX_CPU](_ => None);
      new;
      var i := 0;
      while i < |entries|
        invariant i <= |entries|
        invariant contexts[..i] == entries[..i]
        invariant forall k :: 0 <= k < i ==> next[k] == Follower(k, |entries|)
        modifies next, contexts
      {
        RingModulo(i, |entries|);
        contexts[i] := entries[i];
        next[i] := (i + 1) % |entries|;
        i := i + 1;
      }
    }

    /** `on_interrupt` on processor `c`, which has a task: on others it does not end (`EndsExactlyWhen`). */
    method OnInterrupt(c: nat, ctx: C) returns (resumed: C)
      requires Valid() && HasTask(c, n, next.Length)
      modifies contexts, currents
      ensures Valid()
      ensures var was := old(currents[c]);
              && contexts[..] == (if was == None then old(contexts[..]) else old(contexts[..])[was.value := ctx])
              && currents[..] == old(currents[..])[c := Some(NextOwn(c, n, next.Length, if was == None then 0 else was.value))]
              && resumed == contexts[currents[c].value]
    {
      hide FirstOwn, Distance, Owns;
      if currents[c] == None {
        currents[c] := Some(0);
      } else {
        contexts[currents[c].value] := ctx;
      }
      ghost var from := currents[c].value;
      Search(c);
      NextIsOwn(c, n, next.Length, from);
      resumed := contexts[currents[c].value];
    }

    /** The loop: at least one step along the ring. */
    method Search(c: nat)
      requires next.Length == contexts.Length && 0 < contexts.Length && 0 < n <= MAX_CPU && currents.Length == MAX_CPU
      requires forall i :: 0 <= i < next.Length ==> next[i] == Follower(i, next.Length)
      requires HasTask(c, n, next.Length) && currents[c].Some? && currents[c].value < next.Length && (currents as object) != (next as object)
      modifies currents
      ensures currents[..] == old(currents[..])[c := Some(NextOwn(c, n, next.Length, old(currents[c].value)))]
    {
      hide FirstOwn, Distance, Owns;
      ghost var before := currents[..];
      currents[c] := Some(next[currents[c].value]);
      while currents[c].value % n != c
        invariant currents[c].Some? && currents[c].value < next.Length
        invariant currents[..] == before[c := currents[c]]
        invariant FirstOwn(c, n, next.Length, currents[c].value) == NextOwn(c, n, next.Length, before[c].value)
        decreases Distance(c, n, next.Length, currents[c].value)
      {
        NotOwn(c, n, currents[c].value);
        RingStep(c, n, next.Length, currents[c].value);
        currents[c] := Some(next[currents[c].value]);
      }
      Arrived(c, n, next.Length, currents[c].value);
    }
  }

  lemma NextIsOwn(c: nat, n: nat, total: nat, i: nat)
    requires HasTask(c, n, total) && i < total
    ensures Owns(c, n, NextOwn(c, n, total, i))
  {
  }

  lemma NotOwn(c: nat, n: nat, x: nat)
    requires n > 0 && x % n != c
    ensures !Owns(c, n, x)
  {
  }

  lemma Arrived(c: nat, n: nat, total: nat, x: nat)
    requires HasTask(c, n, total) && x < total && x % n == c
    ensures FirstOwn(c, n, total, x) == x && Owns(c, n, x)
  {
  }

  lemma RingModulo(i: nat, total: nat)
    requires i < total
    ensures (i + 1) % total == Follower(i, total)
  {
    if i + 1 == total {
      DivModUnique(i + 1, total, 1, 0);
    } else {
      SmallMod(i + 1, total);
    }
  }
}
