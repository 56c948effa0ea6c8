/** Runs of the scheduler on one CPU with its interrupts.  mlfq_scheduler runs with interrupts
    on, load by load and store by store, except while it holds a lock; a timer interrupt may
    come between any two of its steps and makes a whole pass of queue_switch. */
module MlfqRuns {
  import opened Counting
  import opened MlfqQueues
  import opened MlfqRings

  /** What the scheduler does next, with the values it has loaded. */
  datatype Pc =
    | Start                                    // call mlfq_scheduler
    | SwTest(q: nat)                           // queue_switch: test whether level q is empty
    | SwFront(q: nat)                          // in que_front: load the size
    | SwHead(q: nat)                           // in que_front: load the head
    | SwProc(q: nat, h: nat)                   // in que_front: load the process at place h
    | SwAct(q: nat, p: nat)                    // queue_switch: with p's lock, move p up or go on
    | Enq(i: nat)                              // with its lock, queue process i if it has to be
    | PkTest(q: nat)                           // dispatch: test whether level q is empty
    | PkPop(q: nat)                            // in que_pop: load the size
    | PkFront(q: nat, n: int)                  // in que_pop: load the head
    | PkRead(q: nat, n: int, h: nat)           // in que_pop: load the process at place h
    | PkAgain(q: nat, n: int, p: nat)          // in que_pop: load the head a second time
    | PkHead(q: nat, n: int, h: nat, p: nat)   // in que_pop: store the head, one more than h
    | PkLoad(q: nat, p: nat)                   // in que_pop: load the size a second time
    | PkSize(q: nat, n: int, p: nat)           // in que_pop: store the size, one less than n
    | PkLock(q: nat, p: nat)                   // dispatch: with p's lock, clear its flag and run it if it can
    | OnCpu(p: nat)                            // process p has the CPU
    | Crashed                                  // a null pointer or a bad index was used

  /** Whether the compiled que_pop loads the head and the size a second time before it stores
      them, as the source does, or uses the values it has. */
  datatype Code = Code(headTwice: bool, sizeTwice: bool)

  datatype Sys = Sys(code: Code, rings: seq<Ring>, state: seq<State>, currq: seq<int>, qued: seq<bool>,
                     enter: seq<nat>, rticks: seq<nat>, ticks: nat, pc: Pc)

  predicate PcShape(pc: Pc) {
    match pc
    case SwTest(q) => 1 <= q <= LEVELS
    case SwFront(q) => 1 <= q < LEVELS
    case SwHead(q) => 1 <= q < LEVELS
    case SwProc(q, h) => 1 <= q < LEVELS && h < NPROC
    case SwAct(q, p) => 1 <= q < LEVELS && p < NPROC
    case Enq(i) => i <= NPROC
    case PkTest(q) => q <= LEVELS
    case PkPop(q) => q < LEVELS
    case PkFront(q, n) => q < LEVELS
    case PkRead(q, n, h) => q < LEVELS && h < NPROC
    case PkAgain(q, n, p) => q < LEVELS && p < NPROC
    case PkHead(q, n, h, p) => q < LEVELS && h < NPROC && p < NPROC
    case PkLoad(q, p) => q < LEVELS && p < NPROC
    case PkSize(q, n, p) => q < LEVELS && p < NPROC
    case PkLock(q, p) => q < LEVELS && p < NPROC
    case OnCpu(p) => p < NPROC
    case _ => true
  }

  predicate WellShaped(s: Sys) {
    && Shape(s.rings) && PcShape(s.pc)
    && |s.state| == |s.currq| == |s.qued| == |s.enter| == |s.rticks| == NPROC
  }

  // ---- Steps ----

  /** One step of mlfq_scheduler: a test, a load, a store, or what it does with a lock held. */
  function Thread(s: Sys): (t: Sys)
    requires WellShaped(s)
    ensures WellShaped(t)
  {
    match s.pc
    case Start => s.(pc := SwTest(1))
    case SwTest(q) =>
      if q == LEVELS then s.(pc := Enq(0))
      else if s.rings[q].size == 0 then s.(pc := SwTest(q + 1))
      else s.(pc := SwFront(q))
    case SwFront(q) => if s.rings[q].size == 0 then s.(pc := Crashed) else s.(pc := SwHead(q))
    case SwHead(q) => s.(pc := SwProc(q, s.rings[q].head))
    case SwProc(q, h) =>
      var p := s.rings[q].procs[h];
      if p == -1 then s.(pc := Crashed) else s.(pc := SwAct(q, p))
    case SwAct(q, p) => Act(s, q, p)
    case Enq(i) =>
      if i == NPROC then s.(pc := PkTest(0))
      else if s.state[i] == Runnable && !s.qued[i] then Enqueue(s, i).(pc :=
        if 0 <= s.currq[i] < LEVELS then Enq(i + 1) else Crashed)
      else s.(pc := Enq(i + 1))
    case PkTest(q) =>
      if q == LEVELS then s.(pc := Start)
      else if s.rings[q].size == 0 then s.(pc := PkTest(q + 1))
      else s.(pc := PkPop(q))
    case OnCpu(_) => s
    case Crashed => s
    case _ => Popping(s)
  }

  /** The process that queue_switch has found goes up, if it has waited long enough. */
  function Act(s: Sys, q: nat, p: nat): (t: Sys)
    requires WellShaped(s) && 1 <= q < LEVELS && p < NPROC
    ensures WellShaped(t)
  {
    if s.state[p] == Runnable && Aged(s.ticks, s.enter[p]) then
      s.(rings := s.rings[q := Pop(s.rings[q])][q - 1 := Push(s.rings[q - 1], p)],
         currq := s.currq[p := s.currq[p] - 1], rticks := s.rticks[p := 0], pc := SwTest(q))
    else s.(pc := SwTest(q + 1))
  }

  /** One step of que_pop and of what mlfq_scheduler does with its result. */
  function Popping(s: Sys): (t: Sys)
    requires WellShaped(s)
    requires s.pc.PkPop? || Pops(s.pc) || s.pc.PkLoad? || s.pc.PkSize? || s.pc.PkLock?
    ensures WellShaped(t)
  {
    match s.pc
    case PkPop(q) => if s.rings[q].size == 0 then s.(pc := Crashed) else s.(pc := PkFront(q, s.rings[q].size))
    case PkFront(q, n) => s.(pc := PkRead(q, n, s.rings[q].head))
    case PkRead(q, n, h) =>
      var p := s.rings[q].procs[h];
      s.(pc := if p == -1 then Crashed else if s.code.headTwice then PkAgain(q, n, p) else PkHead(q, n, h, p))
    case PkAgain(q, n, p) => s.(pc := PkHead(q, n, s.rings[q].head, p))
    case PkHead(q, n, h, p) =>
      s.(rings := s.rings[q := s.rings[q].(head := (h + 1) % 64)],
         pc := if s.code.sizeTwice then PkLoad(q, p) else PkSize(q, n, p))
    case PkLoad(q, p) => s.(pc := PkSize(q, s.rings[q].size, p))
    case PkSize(q, n, p) => s.(rings := s.rings[q := s.rings[q].(size := n - 1)], pc := PkLock(q, p))
    case PkLock(q, p) =>
      var t := s.(qued := s.qued[p := false]);
      if s.state[p] == Runnable then t.(state := s.state[p := Running], pc := OnCpu(p)) else t.(pc := PkTest(q))
  }

  /** A process goes to the end of the queue of its level. */
  function Enqueue(s: Sys, p: nat): (t: Sys)
    requires WellShaped(s) && p < NPROC
    ensures WellShaped(t.(pc := s.pc))
  {
    var t := s.(enter := s.enter[p := s.ticks], rticks := s.rticks[p := 0], qued := s.qued[p := true]);
    var lv := s.currq[p];
    if 0 <= lv < LEVELS then t.(rings := s.rings[lv := Push(s.rings[lv], p)]) else t.(pc := Crashed)
  }

  /** The next tick, of 32 bits. */
  function Later(ticks: nat): nat {
    (ticks + 1) % 0x1_0000_0000
  }

  /** clockintr: a tick, the running processes are charged for it, and a pass. */
  function TimerTick(s: Sys): (t: Sys)
    requires WellShaped(s)
    ensures WellShaped(t)
  {
    var o := Pass(s.rings, 1, Due(s.state, s.enter, Later(s.ticks)));
    s.(rings := o.rings, currq := Lower(s.currq, o.moved), rticks := Restart(Charged(s.rticks, s.state), o.moved),
       ticks := Later(s.ticks), pc := if o.ok then s.pc else Crashed)
  }

  datatype Step =
    | Sched                          // the scheduler's next step
    | Timer
    | SetState(p: nat, st: State)    // sleep, wakeup, yield, exit, kill
    | Alloc(p: nat)                  // allocproc finds slot p
    | Reap(p: nat)                   // freeproc, from wait or from a fork that fails
    | Demote(kernel: bool)           // usertrap or kerneltrap after a timer interrupt
    | PutBack                        // the process has given up the CPU

  /** When each step can happen. */
  predicate Enabled(s: Sys, a: Step)
    requires WellShaped(s)
  {
    && !s.pc.Crashed?
    && match a
       case Sched => !s.pc.OnCpu?
       case Timer => true
       case SetState(p, st) => p < NPROC && s.state[p] != Unused && st != Unused
       case Alloc(p) => (s.pc.Start? || s.pc.OnCpu?) && p < NPROC && s.state[p] == Unused
       case Reap(p) => s.pc.OnCpu? && p < NPROC && p != s.pc.p && (s.state[p] == Used || s.state[p] == Zombie)
       case Demote(_) => s.pc.OnCpu?
       case PutBack => s.pc.OnCpu?
  }

  function Next(s: Sys, a: Step): (t: Sys)
    requires WellShaped(s) && Enabled(s, a)
    ensures WellShaped(t)
  {
    match a
    case Sched => Thread(s)
    case Timer => TimerTick(s)
    case SetState(p, st) => s.(state := s.state[p := st])
    case Alloc(p) =>
      Enqueue(s.(currq := s.currq[p := 0], state := s.state[p := Used]), p)
    case Reap(p) =>
      s.(state := s.state[p := Unused], currq := s.currq[p := 0], qued := s.qued[p := false],
         enter := s.enter[p := 0], rticks := s.rticks[p := 0])
    case Demote(kernel) =>
      var p := s.pc.p;
      var lv := s.currq[p];
      if s.rticks[p] < Slice(lv) then s
      else s.(currq := s.currq[p := if lv < 4 then lv + 1 else lv],
              rticks := if lv < 4 || kernel then s.rticks[p := 0] else s.rticks)
    case PutBack =>
      var t := Enqueue(s, s.pc.p);
      if t.pc.Crashed? then t else t.(pc := Start)
  }

  // ---- Runs ----

  /** After mlfq_init; no process exists. */
  function AtBoot(code: Code): (s: Sys)
    ensures WellShaped(s)
  {
    Sys(code, seq(LEVELS, _ => Ring(seq(NPROC, _ => -1), 0, 0, 0)), seq(NPROC, _ => Unused),
        seq(NPROC, _ => 0), seq(NPROC, _ => false), seq(NPROC, _ => 0), seq(NPROC, _ => 0), 0, Start)
  }

  datatype Run = Boot(code: Code) | Then(before: Run, a: Step)

  /** The state that a run ends in; it stops at a step that cannot happen. */
  function End(r: Run): (s: Sys)
    ensures WellShaped(s)
  {
    match r
    case Boot(code) => AtBoot(code)
    case Then(before, a) =>
      var s := End(before);
      if Enabled(s, a) then Next(s, a) else s
  }

  predicate RunOk(r: Run) {
    r.Then? ==> RunOk(r.before) && Enabled(End(r.before), r.a)
  }

  /** How many steps the scheduler is at most from a point where it has nothing half done. */
  function ToDo(pc: Pc): nat {
    match pc
    case SwFront(_) => 4
    case SwHead(_) => 3
    case SwProc(_, _) => 2
    case SwAct(_, _) => 1
    case PkPop(_) => 8
    case PkFront(_, _) => 7
    case PkRead(_, _, _) => 6
    case PkAgain(_, _, _) => 5
    case PkHead(_, _, _, _) => 4
    case PkLoad(_, _) => 3
    case PkSize(_, _, _) => 2
    case PkLock(_, _) => 1
    case _ => 0
  }

  /** The scheduler goes on to such a point without interrupts. */
  function Finish(s: Sys): (t: Sys)
    requires WellShaped(s)
    ensures WellShaped(t)
    decreases ToDo(s.pc)
  {
    if ToDo(s.pc) == 0 then s else Finish(Thread(s))
  }

  /** Each process is queued at most once and at its own level, and its flag says whether. */
  ghost predicate Sound(s: Sys) {
    !s.pc.Crashed? && Consistent(s.rings, s.currq, s.qued)
  }

  /** Wherever the interrupts stop coming, the queues end up consistent. */
  ghost predicate Safe(r: Run) {
    Sound(Finish(End(r))) && (r.Then? ==> Safe(r.before))
  }

  // ---- What holds between the steps ----

  /** The first `n` processes of a ring. */
  ghost function Queue(r: Ring, n: int): (q: seq<nat>)
    requires Shaped(r)
  {
    if 0 <= n <= NPROC && forall j :: 0 <= j < n ==> r.procs[Place(r.head, j)] >= 0 then
      seq(n, j requires 0 <= j < n && r.procs[Place(r.head, j)] >= 0 => r.procs[Place(r.head, j)])
    else []
  }

  lemma {:induction false} QueueIs(r: Ring, q: seq<nat>, more: nat)
    requires RingIs(r, q, more)
    ensures Queue(r, r.size - more) == q
  {
    assert forall j :: 0 <= j < |q| ==> r.procs[Place(r.head, j)] == q[j];
  }

  /** The level whose ring has its head moved and its size not yet. */
  function Over(s: Sys): int
    requires WellShaped(s)
  {
    if (s.pc.PkLoad? || s.pc.PkSize?) && s.qued[s.pc.p] then s.pc.q else -1
  }

  /** The process that is popped and still flagged. */
  function Out(s: Sys): int
    requires WellShaped(s)
  {
    if (s.pc.PkLoad? || s.pc.PkSize? || s.pc.PkLock?) && s.qued[s.pc.p] then s.pc.p else -1
  }

  /** The queues that the rings hold. */
  ghost function Lists(s: Sys): (lists: Queues)
    requires WellShaped(s)
    ensures |lists| == LEVELS
  {
    seq(LEVELS, lv requires 0 <= lv < LEVELS =>
      Queue(s.rings[lv], s.rings[lv].size - if lv == Over(s) then 1 else 0))
  }

  /** The scheduler is inside que_front, or has its result. */
  predicate Looks(pc: Pc) {
    pc.SwHead? || pc.SwProc? || pc.SwAct?
  }

  /** The scheduler is inside que_pop and has stored nothing yet. */
  predicate Pops(pc: Pc) {
    pc.PkFront? || pc.PkRead? || pc.PkAgain? || pc.PkHead?
  }

  /** The process that the scheduler has loaded or is going to load from ring `r`. */
  function Seen(pc: Pc, r: Ring): (p: int)
    requires Shaped(r) && PcShape(pc) && (Looks(pc) || Pops(pc))
    ensures -1 <= p < NPROC
  {
    if pc.SwHead? || pc.PkFront? then r.procs[r.head]
    else if pc.SwProc? || pc.PkRead? then r.procs[pc.h]
    else pc.p
  }

  predicate IsFront(l: seq<nat>, p: int) {
    l != [] && l[0] == p
  }

  /** The head that the scheduler has loaded, if any, is the head of ring `r`. */
  predicate HeadIs(pc: Pc, r: Ring) {
    pc.PkRead? || pc.PkHead? ==> pc.h == r.head
  }

  /** que_pop is going to leave a ring that is empty empty, and to return a process that is in no
      queue, which does no harm. */
  predicate Stale(code: Code, qued: seq<bool>, n: int, p: int)
    requires |qued| == NPROC && p < NPROC
  {
    !code.sizeTwice && n == 1 && p >= 0 && !qued[p]
  }

  /** What the scheduler has loaded from level pc.q fits ring `r` there, which holds the queue
      `l`: it finds a process; queue_switch finds the front or a process that it leaves alone;
      que_pop finds the front and stores the head and the size that belong to it. */
  ghost predicate Fits(pc: Pc, code: Code, qued: seq<bool>, due: seq<bool>, l: seq<nat>, r: Ring)
    requires Shaped(r) && PcShape(pc) && |qued| == |due| == NPROC
  {
    if pc.SwFront? || pc.PkPop? then l != []
    else if Looks(pc) then Seen(pc, r) != -1 && (IsFront(l, Seen(pc, r)) || !due[Seen(pc, r)])
    else if !Pops(pc) then true
    else if l == [] then Stale(code, qued, pc.n, Seen(pc, r))
    else IsFront(l, Seen(pc, r)) && HeadIs(pc, r) && (code.sizeTwice || pc.n == |l|)
  }

  predicate AtLevel(pc: Pc) {
    pc.SwFront? || pc.PkPop? || Looks(pc) || Pops(pc)
  }

  ghost function DueNow(s: Sys): (due: seq<bool>)
    requires WellShaped(s)
    ensures |due| == NPROC
  {
    Due(s.state, s.enter, s.ticks)
  }

  /** What the scheduler has found out is still true. */
  ghost predicate Known(s: Sys, lists: Queues)
    requires WellShaped(s) && |lists| == LEVELS
  {
    if AtLevel(s.pc) then Fits(s.pc, s.code, s.qued, DueNow(s), lists[s.pc.q], s.rings[s.pc.q])
    else match s.pc
         case PkLoad(q, p) => s.code.sizeTwice && s.qued[p]
         case PkSize(q, n, p) => if s.qued[p] then n == s.rings[q].size else lists[q] == [] && n == 1
         case OnCpu(p) => !s.qued[p] && s.state[p] != Unused
         case _ => true
  }

  ghost predicate UnusedOut(s: Sys)
    requires WellShaped(s)
  {
    forall p :: 0 <= p < NPROC && s.state[p] == Unused ==> !s.qued[p]
  }

  /** The rings hold the queues `lists`, and each process is where its level and its flag say. */
  ghost predicate Base(s: Sys, lists: Queues) {
    && WellShaped(s) && !s.pc.Crashed?
    && RingsAre(s.rings, lists, Over(s)) && Placed(lists, s.currq, s.qued, Out(s))
  }

  ghost predicate Inv(s: Sys, lists: Queues) {
    Base(s, lists) && UnusedOut(s) && |lists| == LEVELS && Known(s, lists)
  }

  lemma {:induction false} InvLists(s: Sys, lists: Queues)
    requires Base(s, lists)
    ensures lists == Lists(s)
  {
    forall lv | 0 <= lv < LEVELS ensures lists[lv] == Lists(s)[lv] {
      QueueIs(s.rings[lv], lists[lv], if lv == Over(s) then 1 else 0);
    }
  }

  // ---- Steps of the scheduler ----

  lemma {:induction false} ActKeeps(s: Sys, lists: Queues)
    requires Inv(s, lists) && s.pc.SwAct? && DueNow(s)[s.pc.p]
    ensures lists[s.pc.q] != [] && Inv(Thread(s), Up(lists, s.pc.q, 1))
  {
    hide RingsAre, Placed;
    var q, p := s.pc.q, s.pc.p;
    PlacedSizes(lists, s.currq, s.qued, -1);
    RoomyAll(lists, s.currq, s.qued, -1, -1);
    RingsMove(s.rings, lists, -1, q);
    UpFirst(lists, q, 1);
    PlacedMove(lists, s.currq, s.qued, -1, q, q - 1);
  }

  lemma {:induction false} EnqueueKeeps(s: Sys, lists: Queues, p: nat) returns (lists': Queues)
    requires WellShaped(s) && QueuesOk(s.rings, lists, s.currq, s.qued) && p < NPROC && !s.qued[p]
             && s.state[p] != Unused
    requires UnusedOut(s)
    ensures var t := Enqueue(s, p);
            t.pc == s.pc && QueuesOk(t.rings, lists', t.currq, t.qued) && |lists'| == LEVELS && UnusedOut(t)
  {
    hide RingsAre, Placed;
    QueueSizes(s.rings, lists, s.currq, s.qued);
    EnqueueOk(s.rings, lists, s.currq, s.qued, p);
    lists' := lists[s.currq[p] := lists[s.currq[p]] + [p]];
  }

  lemma {:induction false} HeadOk(r: Ring, q: seq<nat>)
    requires RingIs(r, q, 0) && q != []
    ensures RingIs(r.(head := (r.head + 1) % 64), q[1..], 1)
  {
    var r', q' := r.(head := (r.head + 1) % 64), q[1..];
    forall j | 0 <= j < |q'| ensures r'.procs[Place(r'.head, j)] == q'[j] {
      assert r.procs[Place(r.head, j + 1)] == q[j + 1];
    }
  }

  /** The head of a queue that is not empty is stored. */
  lemma {:induction false} HeadKeeps(s: Sys, lists: Queues)
    requires Inv(s, lists) && s.pc.PkHead? && lists[s.pc.q] != []
    ensures Inv(Thread(s), lists[s.pc.q := lists[s.pc.q][1..]])
  {
    hide RingIs, Placed;
    var q := s.pc.q;
    PlacedSizes(lists, s.currq, s.qued, -1);
    OneQueue(lists, s.currq, s.qued, -1, q, lists[q][0]);
    RingSize(s.rings[q], lists[q], 0);
    HeadOk(s.rings[q], lists[q]);
    PlacedPop(lists, s.currq, s.qued, q);
  }

  lemma {:induction false} StaleHead(s: Sys, lists: Queues)
    requires Inv(s, lists) && s.pc.PkHead? && lists[s.pc.q] == []
    ensures Inv(Thread(s), lists)
  {
    hide Placed;
    var q := s.pc.q;
    var r := s.rings[q];
    assert RingIs(r, [], 0);
    assert RingIs(r.(head := (s.pc.h + 1) % 64), [], 0);
  }

  lemma {:induction false} SizeKeeps(s: Sys, lists: Queues)
    requires Inv(s, lists) && s.pc.PkSize?
    ensures Inv(Thread(s), lists)
  {
    hide Placed;
    var q := s.pc.q;
    var r := s.rings[q];
    if s.qued[s.pc.p] {
      assert RingIs(r, lists[q], 1);
      assert RingIs(r.(size := r.size - 1), lists[q], 0);
    } else {
      assert RingIs(r, lists[q], 0);
      assert r.(size := 0) == r;
    }
  }

  lemma {:induction false} LockKeeps(s: Sys, lists: Queues)
    requires Inv(s, lists) && s.pc.PkLock?
    ensures Inv(Thread(s), lists)
  {
    hide RingsAre, Placed;
    PlacedSizes(lists, s.currq, s.qued, Out(s));
    if s.qued[s.pc.p] {
      PlacedClear(lists, s.currq, s.qued, s.pc.p);
    } else {
      assert s.qued[s.pc.p := false] == s.qued;
    }
  }

  lemma {:induction false} FrontRead(r: Ring, l: seq<nat>)
    requires RingIs(r, l, 0)
    ensures Shaped(r) && r.size == |l| && (l != [] ==> r.procs[r.head] == l[0])
  {
    if l != [] { assert r.procs[Place(r.head, 0)] == l[0]; }
  }

  /** The tests, and the loads of que_front. */
  lemma {:induction false} LookKeeps(s: Sys, lists: Queues)
    requires Inv(s, lists) && !s.pc.SwAct? && !s.pc.Enq?
    requires !s.pc.PkPop? && !Pops(s.pc) && !s.pc.PkLoad? && !s.pc.PkSize? && !s.pc.PkLock?
    ensures Inv(Thread(s), lists)
  {
    hide RingIs, Placed, Due;
    PlacedSizes(lists, s.currq, s.qued, Out(s));
    RingsShape(s.rings, lists, Over(s));
    if AtLevel(s.pc) { FrontRead(s.rings[s.pc.q], lists[s.pc.q]); }
  }

  /** The loads of que_pop. */
  lemma {:induction false} LoadKeeps(s: Sys, lists: Queues)
    requires Inv(s, lists) && (s.pc.PkPop? || Pops(s.pc) || s.pc.PkLoad?) && !s.pc.PkHead?
    ensures Inv(Thread(s), lists)
  {
    hide RingIs, Placed, Due;
    PlacedSizes(lists, s.currq, s.qued, Out(s));
    RingsShape(s.rings, lists, Over(s));
    if AtLevel(s.pc) { FrontRead(s.rings[s.pc.q], lists[s.pc.q]); }
  }

  lemma {:induction false} PassedBy(s: Sys, lists: Queues)
    requires Inv(s, lists) && s.pc.SwAct? && !DueNow(s)[s.pc.p]
    ensures Inv(Thread(s), lists)
  {
    hide RingsAre, Placed;
  }

  lemma {:induction false} EnqKeeps(s: Sys, lists: Queues) returns (lists': Queues)
    requires Inv(s, lists) && s.pc.Enq?
    ensures Inv(Thread(s), lists')
  {
    hide RingsAre, Placed, Push;
    PlacedSizes(lists, s.currq, s.qued, -1);
    lists' := lists;
    var i := s.pc.i;
    if i < NPROC && s.state[i] == Runnable && !s.qued[i] {
      lists' := EnqueueKeeps(s, lists, i);
      QueueSizes(Enqueue(s, i).rings, lists', Enqueue(s, i).currq, Enqueue(s, i).qued);
    }
  }

  lemma {:induction false} ThreadKeeps(s: Sys, lists: Queues) returns (lists': Queues)
    requires Inv(s, lists)
    ensures Inv(Thread(s), lists')
  {
    hide RingsAre, Placed, Thread, Known;
    PlacedSizes(lists, s.currq, s.qued, Out(s));
    lists' := lists;
    match s.pc
    case SwAct(q, p) =>
      if DueNow(s)[p] {
        ActKeeps(s, lists);
        lists' := Up(lists, q, 1);
      } else {
        PassedBy(s, lists);
      }
    case Enq(i) => lists' := EnqKeeps(s, lists);
    case PkHead(q, n, h, p) =>
      if lists[q] == [] {
        StaleHead(s, lists);
      } else {
        HeadKeeps(s, lists);
        lists' := lists[q := lists[q][1..]];
      }
    case PkSize(q, n, p) => SizeKeeps(s, lists);
    case PkLock(q, p) => LockKeeps(s, lists);
    case _ => if s.pc.PkPop? || Pops(s.pc) || s.pc.PkLoad? { LoadKeeps(s, lists); } else { LookKeeps(s, lists); }
  }

  lemma {:induction false} FinishKeeps(s: Sys, lists: Queues)
    requires Inv(s, lists)
    ensures Sound(Finish(s))
    decreases ToDo(s.pc)
  {
    hide RingsAre, Placed, Thread;
    if ToDo(s.pc) > 0 {
      var lists' := ThreadKeeps(s, lists);
      ThreadToDo(s);
      FinishKeeps(Thread(s), lists');
    } else {
      assert QueuesOk(s.rings, lists, s.currq, s.qued);
    }
  }

  lemma {:induction false} ThreadToDo(s: Sys)
    requires WellShaped(s) && ToDo(s.pc) > 0
    ensures ToDo(Thread(s).pc) < ToDo(s.pc)
  {
  }

  // ---- Timer interrupts ----

  ghost function DueNext(s: Sys): (due: seq<bool>)
    requires WellShaped(s)
    ensures |due| == NPROC
  {
    Due(s.state, s.enter, Later(s.ticks))
  }

  /** What a pass leaves at level `q`. */
  ghost function NextList(lists: Queues, q: nat, due: seq<bool>): seq<nat>
    requires q < |lists|
  {
    lists[q][Count(lists, q, due)..] + Coming(lists, q, due)
  }

  lemma {:induction false} NextListIs(lists: Queues, q: nat, due: seq<bool>)
    requires |lists| == LEVELS && q < LEVELS
    ensures AllUp(lists, 1, LEVELS, due)[q] == NextList(lists, q, due)
  {
    hide AllUp;
    AllUpAt(lists, 1, LEVELS, due, q);
  }

  /** One process climbs from level `q + 1`, and it is `x`. */
  ghost predicate OnlyClimbs(lists: Queues, q: nat, x: int, due: seq<bool>)
    requires |lists| == LEVELS && q < LEVELS
  {
    q + 1 < LEVELS && Lead(lists[q + 1], due) == 1 && lists[q + 1][0] == x
  }

  /** The steps that break the queues.

      A reaped process is still queued.

      A timer interrupt comes while the scheduler works on a level, and what it has loaded does
      not fit the ring that the pass leaves there: the level is empty, its front is another
      process, or its head or its size is not the one that que_pop is going to store one more
      or less of.

      A timer interrupt comes inside que_pop when the head is stored and the size is not.  Then
      the pass may take the process behind the end of the queue, or none at all; that is harmless
      only if this process is the one that climbs from the level below.  If the size is loaded
      already, as many processes must come to the level as leave it.

      A process becomes RUNNABLE that queue_switch has loaded and that is not the front. */
  ghost predicate Harmful(s: Sys, a: Step)
    requires WellShaped(s)
  {
    var lists, due := Lists(s), DueNext(s);
    match a
    case Reap(p) => p < NPROC && s.qued[p]
    case Timer =>
      if AtLevel(s.pc) then
        var q := s.pc.q;
        !Fits(s.pc, s.code, s.qued, due, NextList(lists, q, due), NextRing(s.rings, lists, q, due))
      else if s.pc.PkLoad? then
        var q, r := s.pc.q, s.rings[s.pc.q];
        if Overruns(s.rings, lists, q, due) then !OnlyClimbs(lists, q, r.procs[Last(r)], due)
        else !Snug(r) && Coming(lists, q, due) != []
      else if s.pc.PkSize? then
        var q, r := s.pc.q, s.rings[s.pc.q];
        if s.qued[s.pc.p] && Overruns(s.rings, lists, q, due) then
          !OnlyClimbs(lists, q, r.procs[Last(r)], due) || lists[q] != []
        else |NextList(lists, q, due)| != |lists[q]|
      else false
    case SetState(p, st) =>
      && Looks(s.pc) && p == Seen(s.pc, s.rings[s.pc.q]) && p < NPROC
      && st == Runnable && Aged(s.ticks, s.enter[p]) && !IsFront(lists[s.pc.q], p)
    case _ => false
  }

  /** A pass that does not go past the end of a queue. */
  lemma {:induction false} TimerPass(s: Sys, lists: Queues)
    requires Base(s, lists) && |lists| == LEVELS && !Overruns(s.rings, lists, Over(s), DueNext(s))
    requires Over(s) >= 0 && Coming(lists, Over(s), DueNext(s)) != [] ==> Snug(s.rings[Over(s)])
    ensures var t, l := TimerTick(s), AllUp(lists, 1, LEVELS, DueNext(s));
            t.pc == s.pc && t.qued == s.qued && t.state == s.state && t.code == s.code && Base(t, l)
  {
    hide RingsAre, Placed, Pass, Lower, Restart, AllUp, Movers;
    var due := DueNext(s);
    PlacedSizes(lists, s.currq, s.qued, Out(s));
    RoomyAll(lists, s.currq, s.qued, Out(s), Over(s));
    PassOk(s.rings, lists, Over(s), 1, due);
    PlacedAllUp(lists, s.currq, s.qued, Out(s), 1, LEVELS, due);
  }

  /** The ring of a level after the pass. */
  lemma {:induction false} TimerRing(s: Sys, lists: Queues, q: nat)
    requires Base(s, lists) && |lists| == LEVELS && Over(s) == -1 && q < LEVELS
    ensures TimerTick(s).rings[q] == NextRing(s.rings, lists, q, DueNext(s))
  {
    hide RingsAre, Placed, Pass, Lower, Restart, NextRing;
    PlacedSizes(lists, s.currq, s.qued, Out(s));
    RoomyAll(lists, s.currq, s.qued, Out(s), -1);
    PassRing(s.rings, lists, 1, q, DueNext(s));
  }

  /** A pass while no ring has its size too large. */
  lemma {:induction false} TimerPlain(s: Sys, lists: Queues)
    requires Base(s, lists) && |lists| == LEVELS && Over(s) == -1
    ensures var t, l := TimerTick(s), AllUp(lists, 1, LEVELS, DueNext(s));
            && t.pc == s.pc && t.qued == s.qued && t.state == s.state && t.code == s.code && Base(t, l)
            && DueNow(t) == DueNext(s)
            && forall q :: 0 <= q < LEVELS ==>
                 l[q] == NextList(lists, q, DueNext(s)) && t.rings[q] == NextRing(s.rings, lists, q, DueNext(s))
  {
    hide RingsAre, Placed, Pass, Lower, Restart, NextRing, NextList, AllUp, Overruns;
    NoOverrun(s.rings, lists, DueNext(s));
    TimerPass(s, lists);
    forall q | 0 <= q < LEVELS
      ensures AllUp(lists, 1, LEVELS, DueNext(s))[q] == NextList(lists, q, DueNext(s))
      ensures TimerTick(s).rings[q] == NextRing(s.rings, lists, q, DueNext(s))
    {
      NextListIs(lists, q, DueNext(s));
      TimerRing(s, lists, q);
    }
  }

  lemma {:induction false} NoOverrun(rings: seq<Ring>, lists: Queues, due: seq<bool>)
    requires Shape(rings) && |lists| == LEVELS && |due| == NPROC
    ensures !Overruns(rings, lists, -1, due)
  {
  }

  lemma {:induction false} PlainKeeps(s: Sys, lists: Queues)
    requires Inv(s, lists) && !Harmful(s, Timer) && Over(s) == -1
    ensures Inv(TimerTick(s), AllUp(lists, 1, LEVELS, DueNext(s)))
  {
    hide RingsAre, Placed, TimerTick, Overruns, Lists, AllUp, NextRing, Fits;
    InvLists(s, lists);
    TimerPlain(s, lists);
    if s.pc.PkSize? { assert |NextList(lists, s.pc.q, DueNext(s))| == 0; }
  }

  lemma {:induction false} TimerKeeps(s: Sys, lists: Queues) returns (lists': Queues)
    requires Inv(s, lists) && !Harmful(s, Timer)
    ensures Inv(TimerTick(s), lists')
  {
    hide RingsAre, Placed, TimerTick, Overruns, Snug, Lists, AllUp, NextRing, NextList, Fits;
    InvLists(s, lists);
    var due := DueNext(s);
    if Over(s) == -1 {
      PlainKeeps(s, lists);
      lists' := AllUp(lists, 1, LEVELS, due);
    } else if Overruns(s.rings, lists, s.pc.q, due) {
      lists' := TimerJumps(s, lists);
      JumpKeeps(s, lists, lists');
    } else {
      OverKeeps(s, lists);
      lists' := AllUp(lists, 1, LEVELS, due);
    }
  }

  lemma {:induction false} JumpKeeps(s: Sys, lists: Queues, lists': Queues)
    requires Inv(s, lists) && Over(s) >= 0 && (s.pc.PkSize? ==> lists[s.pc.q] == [])
    requires var t := TimerTick(s);
             Base(t, lists') && t.pc == s.pc && t.qued == s.qued && t.state == s.state && t.code == s.code
    requires |lists'| == LEVELS && lists'[s.pc.q] == []
    ensures Inv(TimerTick(s), lists')
  {
    hide RingIs, Placed, TimerTick;
    OverRing(s.rings, lists, s.pc.q);
    OverRing(TimerTick(s).rings, lists', s.pc.q);
    RingSize(s.rings[s.pc.q], lists[s.pc.q], 1);
    RingSize(TimerTick(s).rings[s.pc.q], [], 1);
  }

  lemma {:induction false} OverKeeps(s: Sys, lists: Queues)
    requires Inv(s, lists) && !Harmful(s, Timer) && Over(s) >= 0 && !Overruns(s.rings, lists, s.pc.q, DueNext(s))
    ensures Inv(TimerTick(s), AllUp(lists, 1, LEVELS, DueNext(s)))
  {
    hide RingIs, Placed, TimerTick, Overruns, Snug, Lists, AllUp;
    InvLists(s, lists);
    var q, due := s.pc.q, DueNext(s);
    OverRing(s.rings, lists, q);
    LooseRing(s.rings[q], lists[q]);
    TimerPass(s, lists);
    NextListIs(lists, q, due);
    OverRing(TimerTick(s).rings, AllUp(lists, 1, LEVELS, due), q);
    RingSize(s.rings[q], lists[q], 1);
    RingSize(TimerTick(s).rings[q], AllUp(lists, 1, LEVELS, due)[q], 1);
  }

  lemma {:induction false} OverRing(rings: seq<Ring>, lists: Queues, q: nat)
    requires RingsAre(rings, lists, q) && q < LEVELS
    ensures |rings| == |lists| == LEVELS && RingIs(rings[q], lists[q], 1)
    ensures forall lv :: 0 <= lv < LEVELS && lv != q ==> RingIs(rings[lv], lists[lv], 0)
  {
  }

  /** A ring that counts one process and holds none, with its tail elsewhere. */
  lemma {:induction false} LooseRing(r: Ring, q: seq<nat>)
    requires RingIs(r, q, 1)
    ensures !Snug(r) ==> q == [] && r.size == 1 && r.tail != r.head
  {
  }

  /** Queues that agree from level `lv` on make the same moves. */
  lemma {:induction false} SameMoves(a: Queues, b: Queues, lv: nat, due: seq<bool>)
    requires |a| == |b| == LEVELS && 0 < lv <= LEVELS && forall x :: lv <= x < LEVELS ==> a[x] == b[x]
    ensures Movers(a, lv, LEVELS, due) == Movers(b, lv, LEVELS, due)
    decreases LEVELS - lv
  {
    if lv < LEVELS {
      var k := Lead(a[lv], due);
      SameMoves(Up(a, lv, k), Up(b, lv, k), lv + 1, due);
    }
  }

  /** The pass goes past the end of the queue of level `q`, from which a process has been taken:
      what it finds when it comes to the levels below. */
  lemma {:induction false} TimerOver(s: Sys, lists: Queues) returns (rings': seq<Ring>, lists2: Queues)
    requires Base(s, lists) && |lists| == LEVELS && Over(s) >= 0 && Overruns(s.rings, lists, s.pc.q, DueNext(s))
    requires s.rings[s.pc.q].procs[Last(s.rings[s.pc.q])] != -1
    ensures var q, due, x := s.pc.q, DueNext(s), s.rings[s.pc.q].procs[Last(s.rings[s.pc.q])];
            && lists2 == AllUp(lists, 1, q, due) && lists2[q] == lists[q]
            && (q + 1 < LEVELS ==> lists2[q + 1] == lists[q + 1])
            && (forall j :: 0 <= j < |Movers(lists, 1, q, due)| ==> Movers(lists, 1, q, due)[j] < NPROC)
            && Placed(lists2, Lower(s.currq, Movers(lists, 1, q, due)), s.qued, s.pc.p)
            && var l3 := Past(lists2, q, x);
               var o, m := Pass(s.rings, 1, due), Movers(l3, q + 1, LEVELS, due);
               && o.ok && RingsAre(o.rings, AllUp(l3, q + 1, LEVELS, due), -1)
               && o.moved == Movers(lists, 1, q, due) + lists[q] + [x] + m
  {
    hide RingsAre, Placed, Pass, Lower, AllUp, Movers;
    var q, due, x := s.pc.q, DueNext(s), s.rings[s.pc.q].procs[Last(s.rings[s.pc.q])];
    PlacedSizes(lists, s.currq, s.qued, Out(s));
    RoomyAll(lists, s.currq, s.qued, Out(s), q);
    rings' := PassOver(s.rings, lists, q, 1, due);
    lists2 := AllUp(lists, 1, q, due);
    AllUpAt(lists, 1, q, due, q);
    if q + 1 < LEVELS { AllUpAt(lists, 1, q, due, q + 1); }
    PlacedAllUp(lists, s.currq, s.qued, Out(s), 1, q, due);
    RoomyAll(lists2, Lower(s.currq, Movers(lists, 1, q, due)), s.qued, s.pc.p, q);
    PassOk(rings', Past(lists2, q, x), -1, q + 1, due);
  }

  /** The queues after process `x`, the first of level `q + 1`, has gone up twice, behind all
      processes of level `q`. */
  ghost function Jumped(lists: Queues, q: nat, x: nat): (r: Queues)
    requires 0 < q && q + 1 < |lists| && lists[q + 1] != []
    ensures |r| == |lists|
  {
    Past(lists, q, x)[q + 1 := lists[q + 1][1..]]
  }

  lemma {:induction false} JumpPlaced(lists: Queues, currq: seq<int>, qued: seq<bool>, out: int, q: nat, x: nat)
    requires Placed(lists, currq, qued, out) && 0 < q && q + 1 < LEVELS && lists[q + 1] != [] && lists[q + 1][0] == x
    ensures (forall j :: 0 <= j < |lists[q]| ==> lists[q][j] < NPROC) && x < NPROC
    ensures Placed(Jumped(lists, q, x), Lower(currq, lists[q] + [x] + [x]), qued, out)
  {
    hide Placed, Lower;
    PlacedSizes(lists, currq, qued, out);
    var all := lists[q][..|lists[q]|];
    assert all == lists[q];
    PlacedUp(lists, currq, qued, out, q, |lists[q]|);
    var l, c := Up(lists, q, |lists[q]|), Lower(currq, lists[q]);
    PlacedMove(l, c, qued, out, q + 1, q - 1);
    assert l[q] == [] && l[q - 1] == lists[q - 1] + lists[q];
    assert l[q + 1 := l[q + 1][1..]][q - 1 := l[q - 1] + [x]] == Jumped(lists, q, x);
    LowerTwice(c, x);
    assert lists[q] + [x] + [x] == lists[q] + [x, x];
    LowerBoth(currq, lists[q], [x, x]);
  }

  lemma {:induction false} LowerTwice(c: seq<int>, x: nat)
    requires x < |c|
    ensures Lower(c, [x, x]) == c[x := c[x] - 2]
  {
    var c1 := c[x := c[x] - 1];
    assert [x, x][1..] == [x] && [x][1..] == [];
    assert Lower(c1, [x]) == Lower(c1[x := c1[x] - 1], []);
  }

  /** After the jump the ring of level `q` counts one process, which is not queued there. */
  lemma {:induction false} JumpRings(rings: seq<Ring>, lists: Queues, q: nat, x: nat, due: seq<bool>)
    requires |lists| == LEVELS && 0 < q < LEVELS && OnlyClimbs(lists, q, x, due)
    requires RingsAre(rings, AllUp(Past(lists, q, x), q + 1, LEVELS, due), -1)
    ensures RingsAre(rings, AllUp(Jumped(lists, q, x), q + 2, LEVELS, due), q)
    ensures AllUp(Jumped(lists, q, x), q + 2, LEVELS, due)[q] == []
    ensures Movers(Past(lists, q, x), q + 1, LEVELS, due) == [x] + Movers(Jumped(lists, q, x), q + 2, LEVELS, due)
  {
    var l3, l4 := Past(lists, q, x), Jumped(lists, q, x);
    var l := Up(l3, q + 1, 1);
    assert l3[q + 1] == lists[q + 1] && lists[q + 1][..1] == [x];
    assert AllUp(l3, q + 1, LEVELS, due) == AllUp(l, q + 2, LEVELS, due);
    assert Movers(l3, q + 1, LEVELS, due) == [x] + Movers(l, q + 2, LEVELS, due);
    assert l[q] == [] + [x] && l4 == l[q := []];
    SameMoves(l, l4, q + 2, due);
    hide RingIs, AllUp, Movers, Up, Past, Jumped;
    forall lv | 0 <= lv < LEVELS
      ensures RingIs(rings[lv], AllUp(l4, q + 2, LEVELS, due)[lv], if lv == q then 1 else 0)
    {
      AllUpAt(l, q + 2, LEVELS, due, lv);
      AllUpAt(l4, q + 2, LEVELS, due, lv);
      if lv == q { OneLess(rings[q], x); }
    }
    AllUpAt(l4, q + 2, LEVELS, due, q);
  }

  lemma {:induction false} OneLess(r: Ring, x: nat)
    requires RingIs(r, [x], 0)
    ensures RingIs(r, [], 1)
  {
  }

  /** The one way in which going past the end of a queue does no harm. */
  lemma {:induction false} TimerJumps(s: Sys, lists: Queues) returns (lists': Queues)
    requires Base(s, lists) && |lists| == LEVELS && Over(s) >= 0 && Overruns(s.rings, lists, s.pc.q, DueNext(s))
    requires OnlyClimbs(lists, s.pc.q, s.rings[s.pc.q].procs[Last(s.rings[s.pc.q])], DueNext(s))
    ensures var t := TimerTick(s);
            t.pc == s.pc && t.qued == s.qued && t.state == s.state && t.code == s.code && Base(t, lists')
    ensures |lists'| == LEVELS && lists'[s.pc.q] == []
  {
    hide RingsAre, Placed, Pass, Lower, Restart, AllUp, Movers, Past, Jumped;
    var q, due, x := s.pc.q, DueNext(s), s.rings[s.pc.q].procs[Last(s.rings[s.pc.q])];
    PlacedSizes(lists, s.currq, s.qued, Out(s));
    assert lists[q + 1][0] == x;
    var rings', l2 := TimerOver(s, lists);
    JumpRings(Pass(s.rings, 1, due).rings, l2, q, x, due);
    var m, rest := Movers(lists, 1, q, due), Movers(Jumped(l2, q, x), q + 2, LEVELS, due);
    var c := Lower(s.currq, m);
    PlacedSizes(l2, c, s.qued, s.pc.p);
    JumpPlaced(l2, c, s.qued, s.pc.p, q, x);
    PlacedAllUp(Jumped(l2, q, x), Lower(c, lists[q] + [x] + [x]), s.qued, s.pc.p, q + 2, LEVELS, due);
    lists' := AllUp(Jumped(l2, q, x), q + 2, LEVELS, due);
    LowerBoth(s.currq, m, lists[q] + [x] + [x]);
    LowerBoth(s.currq, m + (lists[q] + [x] + [x]), rest);
    assert Pass(s.rings, 1, due).moved == m + (lists[q] + [x] + [x]) + rest;
  }

  // ---- All steps ----

  lemma {:induction false} AllocKeeps(s: Sys, lists: Queues, p: nat) returns (lists': Queues)
    requires Inv(s, lists) && Enabled(s, Alloc(p))
    ensures Inv(Next(s, Alloc(p)), lists')
  {
    hide RingsAre, Placed;
    PlacedSizes(lists, s.currq, s.qued, -1);
    PlacedRelevel(lists, s.currq, s.qued, p, 0);
    lists' := EnqueueKeeps(s.(currq := s.currq[p := 0], state := s.state[p := Used]), lists, p);
  }

  lemma {:induction false} ReapKeeps(s: Sys, lists: Queues, p: nat)
    requires Inv(s, lists) && Enabled(s, Reap(p)) && !s.qued[p]
    ensures Inv(Next(s, Reap(p)), lists)
  {
    hide RingsAre, Placed;
    PlacedRelevel(lists, s.currq, s.qued, p, 0);
    assert s.qued[p := false] == s.qued;
  }

  lemma {:induction false} DemoteKeeps(s: Sys, lists: Queues, kernel: bool)
    requires Inv(s, lists) && s.pc.OnCpu?
    ensures Inv(Next(s, Demote(kernel)), lists)
  {
    hide RingsAre, Placed;
    PlacedSizes(lists, s.currq, s.qued, -1);
    var p := s.pc.p;
    PlacedRelevel(lists, s.currq, s.qued, p, if s.currq[p] < 4 then s.currq[p] + 1 else s.currq[p]);
  }

  lemma {:induction false} PutBackKeeps(s: Sys, lists: Queues) returns (lists': Queues)
    requires Inv(s, lists) && s.pc.OnCpu?
    ensures Inv(Next(s, PutBack), lists')
  {
    hide RingsAre, Placed;
    lists' := EnqueueKeeps(s, lists, s.pc.p);
  }

  lemma {:induction false} SetKeeps(s: Sys, lists: Queues, p: nat, st: State)
    requires Inv(s, lists) && Enabled(s, SetState(p, st)) && !Harmful(s, SetState(p, st))
    ensures Inv(Next(s, SetState(p, st)), lists)
  {
    hide RingsAre, Placed, Lists;
    InvLists(s, lists);
  }

  lemma {:induction false} StepKeeps(s: Sys, lists: Queues, a: Step) returns (lists': Queues)
    requires Inv(s, lists) && Enabled(s, a) && !Harmful(s, a)
    ensures Inv(Next(s, a), lists')
  {
    hide RingsAre, Placed, Thread, TimerTick, Enqueue, Lists, Known, UnusedOut;
    lists' := lists;
    match a
    case Sched => lists' := ThreadKeeps(s, lists);
    case Timer => lists' := TimerKeeps(s, lists);
    case SetState(p, st) => SetKeeps(s, lists, p, st);
    case Alloc(p) => lists' := AllocKeeps(s, lists, p);
    case Reap(p) => ReapKeeps(s, lists, p);
    case Demote(kernel) => DemoteKeeps(s, lists, kernel);
    case PutBack => lists' := PutBackKeeps(s, lists);
  }

  // ---- What makes queues inconsistent ----

  /** A ring holds a process that is not flagged. */
  lemma {:induction false} HoldsCleared(rings: seq<Ring>, x: nat, w: seq<nat>, currq: seq<int>, qued: seq<bool>, p: nat)
    requires |rings| == LEVELS && x < LEVELS && RingIs(rings[x], w, 0) && p in w && p < |qued| && !qued[p]
    ensures !Consistent(rings, currq, qued)
  {
    hide RingIs, Placed;
    forall l ensures !QueuesOk(rings, l, currq, qued) {
      if QueuesOk(rings, l, currq, qued) {
        RingOf(rings, l, x);
        RingUnique(rings[x], w, l[x], 0);
        OneQueue(l, currq, qued, -1, x, p);
        assert false;
      }
    }
  }

  /** A ring that counts less than no process, or whose tail is not behind its last one. */
  predicate BadRing(r: Ring) {
    Shaped(r) && (r.size < 0 || (0 < r.size <= NPROC && r.tail != Place(r.head, r.size)))
  }

  lemma {:induction false} BadBreaks(rings: seq<Ring>, q: nat, currq: seq<int>, qued: seq<bool>)
    requires |rings| == LEVELS && q < LEVELS && BadRing(rings[q])
    ensures !Consistent(rings, currq, qued)
  {
    hide Placed;
    forall l ensures !QueuesOk(rings, l, currq, qued) {
      if QueuesOk(rings, l, currq, qued) {
        RingOf(rings, l, q);
        assert false;
      }
    }
  }

  // ---- The rest of what the scheduler is doing ----

  /** The process that que_pop returns, -1 for none. */
  function Taken(s: Sys): (p: int)
    requires WellShaped(s) && (Pops(s.pc) || s.pc.PkLoad? || s.pc.PkSize?)
    ensures -1 <= p < NPROC
  {
    if Pops(s.pc) then Seen(s.pc, s.rings[s.pc.q]) else s.pc.p
  }

  /** The ring that que_pop leaves if no interrupt comes. */
  function Popped(s: Sys): (r: Ring)
    requires WellShaped(s) && (Pops(s.pc) || s.pc.PkLoad? || s.pc.PkSize?)
    ensures Shaped(r)
  {
    var r, pc := s.rings[s.pc.q], s.pc;
    var h := if pc.PkHead? || (pc.PkRead? && !s.code.headTwice) then pc.h else r.head;
    r.(head := if Pops(pc) then (h + 1) % 64 else r.head,
       size := if pc.PkLoad? || (Pops(pc) && s.code.sizeTwice) then r.size - 1 else pc.n - 1)
  }

  lemma {:induction false} FinishPop(t: Sys)
    requires WellShaped(t) && (Pops(t.pc) || t.pc.PkLoad? || t.pc.PkSize?)
    ensures var u, p := Finish(t), Taken(t);
            if p == -1 then u.pc.Crashed?
            else u.rings == t.rings[t.pc.q := Popped(t)] && u.qued == t.qued[p := false] && u.currq == t.currq
    decreases ToDo(t.pc)
  {
    var t1 := Thread(t);
    assert Finish(t) == Finish(t1);
    if t.pc.PkSize? {
      assert Finish(t1) == Thread(t1);
    } else if t1.pc.Crashed? {
      assert Finish(t1) == t1;
    } else {
      PopStep(t);
      FinishPop(t1);
    }
  }

  lemma {:induction false} PopStep(t: Sys)
    requires WellShaped(t) && (Pops(t.pc) || t.pc.PkLoad?) && !Thread(t).pc.Crashed?
    ensures var t1 := Thread(t);
            && (Pops(t1.pc) || t1.pc.PkLoad? || t1.pc.PkSize?) && ToDo(t1.pc) < ToDo(t.pc)
            && t1.pc.q == t.pc.q && t1.qued == t.qued && t1.currq == t.currq && Taken(t1) == Taken(t)
            && t1.rings[t.pc.q := Popped(t1)] == t.rings[t.pc.q := Popped(t)]
  {
    assert |Thread(t).rings| == |t.rings|;
  }

  // ---- The harmful steps ----

  /** The level that the scheduler has found not empty is empty now. */
  lemma {:induction false} EmptyBreaks(t: Sys, l: Queues)
    requires Base(t, l) && |l| == LEVELS && (t.pc.SwFront? || t.pc.PkPop?) && l[t.pc.q] == []
    ensures !Sound(Finish(t))
  {
    hide Placed;
    RingsShape(t.rings, l, -1);
    assert Thread(t).pc == Crashed;
  }

  lemma {:induction false} FinishAct(t: Sys)
    requires WellShaped(t) && Looks(t.pc)
    ensures var p := Seen(t.pc, t.rings[t.pc.q]);
            if p == -1 then Finish(t).pc.Crashed? else Finish(t) == Act(t, t.pc.q, p)
    decreases ToDo(t.pc)
  {
    var t1 := Thread(t);
    assert Finish(t) == Finish(t1);
    if t.pc.SwAct? {
      ActPc(t, t.pc.q, t.pc.p, t.pc);
      assert Finish(t1) == t1;
    } else if t1.pc.Crashed? {
      assert Finish(t1) == t1;
    } else {
      hide Act;
      FinishAct(t1);
      ActPc(t, t.pc.q, Seen(t1.pc, t1.rings[t1.pc.q]), t1.pc);
    }
  }

  lemma {:induction false} ActPc(t: Sys, q: nat, p: int, pc: Pc)
    requires WellShaped(t) && PcShape(pc) && 1 <= q < LEVELS && p < NPROC
    ensures p >= 0 ==> Act(t.(pc := pc), q, p) == Act(t, q, p) && ToDo(Act(t, q, p).pc) == 0
  {
  }

  /** queue_switch finds no process, or moves one up that is not the front. */
  lemma {:induction false} LookBreaks(t: Sys, l: Queues)
    requires Base(t, l) && |l| == LEVELS && Looks(t.pc)
    requires !Fits(t.pc, t.code, t.qued, DueNow(t), l[t.pc.q], t.rings[t.pc.q])
    ensures !Sound(Finish(t))
  {
    hide RingsAre, Placed, Push, Pop, Finish;
    var q, p := t.pc.q, Seen(t.pc, t.rings[t.pc.q]);
    FinishAct(t);
    if p != -1 {
      PlacedSizes(l, t.currq, t.qued, -1);
      var rings' := t.rings[q := Pop(t.rings[q])][q - 1 := Push(t.rings[q - 1], p)];
      if l[q] == [] {
        OneMore(t.rings, l, t.currq, t.qued, q, p, Act(t, q, p).currq);
      } else {
        LostFront(t.rings, l, t.currq, t.qued, q, p, Act(t, q, p).currq);
      }
    }
  }

  /** A process is pushed and none is popped. */
  lemma {:induction false} OneMore(rings: seq<Ring>, l: Queues, currq: seq<int>, qued: seq<bool>, q: nat, p: nat,
                                   currq': seq<int>)
    requires QueuesOk(rings, l, currq, qued) && 0 < q < LEVELS && p < NPROC && l[q] == []
    ensures Shape(rings)
    ensures !Consistent(rings[q := Pop(rings[q])][q - 1 := Push(rings[q - 1], p)], currq', qued)
  {
    hide RingIs, Placed;
    RingsShape(rings, l, -1);
    AllCounted(rings, l, currq, qued, -1, -1);
    var rings' := rings[q := Pop(rings[q])][q - 1 := Push(rings[q - 1], p)];
    forall l' ensures !QueuesOk(rings', l', currq', qued) {
      if QueuesOk(rings', l', currq', qued) {
        AllCounted(rings', l', currq', qued, -1, -1);
        assert false;
      }
    }
  }

  /** The front is popped and another process is pushed: the front is in no queue. */
  lemma {:induction false} LostFront(rings: seq<Ring>, l: Queues, currq: seq<int>, qued: seq<bool>, q: nat, p: nat,
                                     currq': seq<int>)
    requires QueuesOk(rings, l, currq, qued) && 0 < q < LEVELS && p < NPROC && l[q] != [] && l[q][0] != p
    ensures Shape(rings)
    ensures !Consistent(rings[q := Pop(rings[q])][q - 1 := Push(rings[q - 1], p)], currq', qued)
  {
    hide RingsAre, RingIs, Placed, Pop, Push;
    QueueSizes(rings, l, currq, qued);
    var z := l[q][0];
    OneQueue(l, currq, qued, -1, q, z);
    NoRepeats(l, currq, qued, -1, q);
    Room(l, currq, qued, -1, q - 1, q);
    RingOf(rings, l, q);
    RingOf(rings, l, q - 1);
    PopOk(rings[q], l[q], 0);
    PushOk(rings[q - 1], l[q - 1], 0, p);
    var rings' := rings[q := Pop(rings[q])][q - 1 := Push(rings[q - 1], p)];
    forall l' ensures !QueuesOk(rings', l', currq', qued) {
      if QueuesOk(rings', l', currq', qued) {
        forall lv | 0 <= lv < LEVELS ensures lv < |l'| && z !in l'[lv] {
          RingOf(rings', l', lv);
          RingOf(rings, l, lv);
          var w := if lv == q then l[q][1..] else if lv == q - 1 then l[q - 1] + [p] else l[lv];
          RingUnique(rings'[lv], l'[lv], w, 0);
        }
        var lv := InLevel(l', currq', qued, z);
        assert false;
      }
    }
  }

  lemma {:induction false} InLevel(lists: Queues, currq: seq<int>, qued: seq<bool>, p: nat) returns (lv: nat)
    requires Placed(lists, currq, qued, -1) && p < NPROC && qued[p]
    ensures lv < LEVELS == |lists| && p in lists[lv]
  {
    lv := currq[p];
  }

  // ---- A timer interrupt before que_pop has stored anything ----

  /** What the place of the old head holds after `k` pops, at least one, and the pushes of `ps`: the
      old front still, or one of the processes pushed since the ring began again at place 0. */
  lemma {:induction false} SlotStays(r: Ring, q: seq<nat>, k: nat, ps: seq<nat>, l: seq<nat>)
    requires RingIs(r, q, 0) && 0 < k <= |q| && |q| + |ps| <= NPROC && l == q[k..] + ps
    requires forall i :: 0 <= i < |ps| ==> ps[i] < NPROC
    requires RingIs(PushMany(PopMany(r, k), ps), l, 0)
    ensures var r' := PushMany(PopMany(r, k), ps);
            || r'.procs[r.head] == q[0]
            || (r'.head == 0 && r.head < |l| && r'.procs[r.head] == l[r.head])
  {
    var r1, r' := PopMany(r, k), PushMany(PopMany(r, k), ps);
    assert r.procs[Place(r.head, 0)] == q[0];
    if k < |q| {
      PushedOn(r1, ps, r.head);
      assert forall i :: 0 <= i < |ps| ==> Place(r1.tail, i) != r.head;
    } else if ps != [] {
      PushedNew(r1, ps, r.head);
      assert l == ps;
      if r.head < |ps| { assert r'.procs[Place(0, r.head)] == l[r.head]; }
    }
  }

  /** The same for any place of a ring that was empty. */
  lemma {:induction false} SlotOfEmpty(r: Ring, ps: seq<nat>, j: nat)
    requires RingIs(r, [], 0) && 0 < |ps| <= NPROC && j < NPROC && forall i :: 0 <= i < |ps| ==> ps[i] < NPROC
    requires RingIs(PushMany(PopMany(r, 0), ps), ps, 0)
    ensures var r' := PushMany(PopMany(r, 0), ps);
            r'.head == 0 && r'.procs[j] == if j < |ps| then ps[j] else r.procs[j]
  {
    var r' := PushMany(PopMany(r, 0), ps);
    PushedNew(PopMany(r, 0), ps, j);
    if j < |ps| { assert r'.procs[Place(0, j)] == ps[j]; }
  }

  /** The ring of level `q` after the pass, with the queue there. */
  lemma {:induction false} NextRingIs(s: Sys, lists: Queues, q: nat)
    requires Base(s, lists) && |lists| == LEVELS && Over(s) == -1 && q < LEVELS
    ensures var due := DueNext(s);
            var k, ps, r' := Count(lists, q, due), Coming(lists, q, due), NextRing(s.rings, lists, q, due);
            && RingIs(s.rings[q], lists[q], 0) && RingIs(r', NextList(lists, q, due), 0)
            && |lists[q]| + |ps| <= NPROC && k <= NPROC && (forall i :: 0 <= i < |ps| ==> ps[i] < NPROC)
            && r' == PushMany(PopMany(s.rings[q], k), ps)
  {
    hide RingIs, Placed, TimerTick, PushMany, PopMany;
    var due := DueNext(s);
    TimerPlain(s, lists);
    RingOf(TimerTick(s).rings, AllUp(lists, 1, LEVELS, due), q);
    RingOf(s.rings, lists, q);
    RingProcs(s.rings[q], lists[q]);
    if q + 1 < LEVELS {
      RingOf(s.rings, lists, q + 1);
      RingProcs(s.rings[q + 1], lists[q + 1]);
      Room(lists, s.currq, s.qued, Out(s), q, q + 1);
    }
  }

  /** The process that queue_switch moves up is queued above, and the others stay. */
  lemma {:induction false} WentUp(s: Sys, lists: Queues, q: nat)
    requires Base(s, lists) && |lists| == LEVELS && Over(s) == -1 && q < LEVELS && Count(lists, q, DueNext(s)) > 0
    ensures 0 < q && lists[q][0] !in NextList(lists, q, DueNext(s))
  {
    hide RingsAre, Placed, TimerTick;
    var due := DueNext(s);
    OneQueue(lists, s.currq, s.qued, Out(s), q, lists[q][0]);
    NoRepeats(lists, s.currq, s.qued, Out(s), q);
  }

  /** What que_pop reads at the place it has loaded before the pass. */
  lemma {:induction false} ReadAfter(s: Sys, lists: Queues)
    requires Inv(s, lists) && s.pc.PkRead? && lists[s.pc.q] != []
    ensures var due := DueNext(s);
            var l, r := NextList(lists, s.pc.q, due), NextRing(s.rings, lists, s.pc.q, due);
            var p := r.procs[s.pc.h];
            (p == lists[s.pc.q][0] || p in l) && (IsFront(l, p) ==> s.pc.h == r.head)
  {
    hide RingsAre, Placed, PushMany, PopMany, NextRing;
    var q, due := s.pc.q, DueNext(s);
    var l, r, k, ps := NextList(lists, q, due), NextRing(s.rings, lists, q, due), Count(lists, q, due),
        Coming(lists, q, due);
    NextRingIs(s, lists, q);
    FrontRead(r, l);
    if k == 0 {
      NoneMoved(s.rings[q], s.rings[q]);
      PushedOn(s.rings[q], ps, 0);
      assert l[0] == lists[q][0];
    } else {
      assert s.pc.h == s.rings[q].head;
      SlotStays(s.rings[q], lists[q], k, ps, l);
      WentUp(s, lists, q);
      NextRepeats(s, lists, q);
    }
  }

  lemma {:induction false} NextRepeats(s: Sys, lists: Queues, q: nat)
    requires Base(s, lists) && |lists| == LEVELS && Over(s) == -1 && q < LEVELS
    ensures Distinct(NextList(lists, q, DueNext(s)))
    ensures forall p :: p in NextList(lists, q, DueNext(s)) ==> p < NPROC && s.qued[p]
  {
    hide RingsAre, Placed, TimerTick;
    TimerPlain(s, lists);
    var t, l := TimerTick(s), AllUp(lists, 1, LEVELS, DueNext(s));
    NoRepeats(l, t.currq, t.qued, Out(t), q);
    forall p | p in l[q] ensures p < NPROC && s.qued[p] { OneQueue(l, t.currq, t.qued, Out(t), q, p); }
  }

  /** If que_pop returns the front after the pass then the head it has loaded is right. */
  lemma {:induction false} HeadFollows(s: Sys, lists: Queues)
    requires Inv(s, lists) && Pops(s.pc)
    requires var q, due := s.pc.q, DueNext(s);
             IsFront(NextList(lists, q, due), Seen(s.pc, NextRing(s.rings, lists, q, due)))
    ensures HeadIs(s.pc, NextRing(s.rings, lists, s.pc.q, DueNext(s)))
  {
    hide RingsAre, Placed, PushMany, PopMany, NextRing, NextList, RingIs;
    var q, due := s.pc.q, DueNext(s);
    var l, r, k, ps := NextList(lists, q, due), NextRing(s.rings, lists, q, due), Count(lists, q, due),
        Coming(lists, q, due);
    NextRingIs(s, lists, q);
    NextRepeats(s, lists, q);
    if lists[q] == [] {
      EmptyNext(lists, q, due);
      if s.pc.PkRead? { SlotOfEmpty(s.rings[q], ps, s.pc.h); }
    } else if s.pc.PkRead? {
      ReadAfter(s, lists);
    } else if s.pc.PkHead? {
      if k == 0 {
        NoneMoved(s.rings[q], s.rings[q]);
        RingProcs(s.rings[q], lists[q]);
        PushedOn(s.rings[q], ps, 0);
      } else {
        WentUp(s, lists, q);
      }
    }
  }

  lemma {:induction false} EmptyNext(lists: Queues, q: nat, due: seq<bool>)
    requires q < |lists| && lists[q] == []
    ensures Count(lists, q, due) == 0 && NextList(lists, q, due) == Coming(lists, q, due)
  {
  }

  /** A process that is not flagged is returned, and the sizes are right: the ring was empty and
      is empty. */
  lemma {:induction false} StaleFits(s: Sys, lists: Queues)
    requires Inv(s, lists) && Pops(s.pc)
    requires var q, due := s.pc.q, DueNext(s);
             var l, p := NextList(lists, q, due), Seen(s.pc, NextRing(s.rings, lists, q, due));
             p >= 0 && !s.qued[p] && !s.code.sizeTwice && |l| == s.pc.n - 1
    ensures var q, due := s.pc.q, DueNext(s);
            Fits(s.pc, s.code, s.qued, due, NextList(lists, q, due), NextRing(s.rings, lists, q, due))
  {
    hide RingsAre, Placed, PushMany, PopMany, NextRing, NextList, RingIs;
    var q, due := s.pc.q, DueNext(s);
    var l, r := NextList(lists, q, due), NextRing(s.rings, lists, q, due);
    NextRingIs(s, lists, q);
    NextRepeats(s, lists, q);
    FrontRead(r, l);
    if l != [] {
      assert l[0] in l;
      if lists[q] != [] {
        OneQueue(lists, s.currq, s.qued, -1, q, lists[q][0]);
        if s.pc.PkRead? { ReadAfter(s, lists); }
      }
    }
  }

  lemma {:induction false} TailMoves(r: Ring, l: seq<nat>, h: nat)
    requires RingIs(r, l, 0) && |l| >= 2 && h < NPROC && h != r.head
    ensures BadRing(r.(head := (h + 1) % 64, size := |l| - 1))
  {
  }

  lemma {:induction false} PoppedIs(r: Ring, l: seq<nat>)
    requires RingIs(r, l, 0) && l != []
    ensures RingIs(r.(head := (r.head + 1) % 64, size := |l| - 1), l[1..], 0)
  {
    HeadOk(r, l);
  }

  /** que_pop goes on with what it has loaded before the pass, and that does not fit. */
  lemma {:induction false} PopBreaks(s: Sys, lists: Queues)
    requires Inv(s, lists) && Pops(s.pc)
    requires var q, due := s.pc.q, DueNext(s);
             !Fits(s.pc, s.code, s.qued, due, NextList(lists, q, due), NextRing(s.rings, lists, q, due))
    ensures !Sound(Finish(TimerTick(s)))
  {
    hide RingsAre, RingIs, Placed, TimerTick, NextRing, NextList, AllUp, Finish, Popped, Fits, Inv;
    InvBase(s, lists);
    var q, due, t := s.pc.q, DueNext(s), TimerTick(s);
    TimerPlain(s, lists);
    FinishPop(t);
    var p, fr := Taken(t), Popped(t);
    if p != -1 { PopWrong(s, lists, t, AllUp(lists, 1, LEVELS, due)); }
  }

  lemma {:induction false} InvBase(s: Sys, lists: Queues)
    requires Inv(s, lists)
    ensures Base(s, lists) && |lists| == LEVELS
  {
  }

  lemma {:induction false} PopWrong(s: Sys, lists: Queues, t: Sys, l: Queues)
    requires Inv(s, lists) && Pops(s.pc) && Base(t, l) && |l| == LEVELS && t.pc == s.pc
    requires t.qued == s.qued && t.code == s.code && l[s.pc.q] == NextList(lists, s.pc.q, DueNext(s))
    requires t.rings[s.pc.q] == NextRing(s.rings, lists, s.pc.q, DueNext(s))
    requires !Fits(s.pc, s.code, s.qued, DueNext(s), l[s.pc.q], t.rings[s.pc.q]) && Taken(t) >= 0
    ensures !Consistent(t.rings[s.pc.q := Popped(t)], t.currq, t.qued[Taken(t) := false])
  {
    hide RingsAre, RingIs, Placed, NextRing, NextList, Inv;
    var q, p, fr, r, w := s.pc.q, Taken(t), Popped(t), t.rings[s.pc.q], l[s.pc.q];
    PlacedSizes(l, t.currq, t.qued, -1);
    AllCounted(t.rings, l, t.currq, t.qued, -1, -1);
    RingOf(t.rings, l, q);
    RingSize(r, w, 0);
    if r.size - fr.size != if t.qued[p] then 1 else 0 {
      Miscounted(t.rings, t.qued, t.currq, q, fr, p);
    } else if fr.size < 0 {
      BadBreaks(t.rings[q := fr], q, t.currq, t.qued[p := false]);
    } else if !t.qued[p] {
      StaleFits(s, lists);
      assert false;
    } else {
      FlagCleared(s, lists, t, l);
    }
  }

  /** The process that que_pop returns is queued. */
  lemma {:induction false} FlagCleared(s: Sys, lists: Queues, t: Sys, l: Queues)
    requires Inv(s, lists) && Pops(s.pc) && Base(t, l) && |l| == LEVELS && t.pc == s.pc
    requires t.qued == s.qued && t.code == s.code && l[s.pc.q] == NextList(lists, s.pc.q, DueNext(s))
    requires t.rings[s.pc.q] == NextRing(s.rings, lists, s.pc.q, DueNext(s))
    requires !Fits(s.pc, s.code, s.qued, DueNext(s), l[s.pc.q], t.rings[s.pc.q]) && Taken(t) >= 0
    requires t.qued[Taken(t)] && 0 <= Popped(t).size == t.rings[s.pc.q].size - 1
    ensures !Consistent(t.rings[s.pc.q := Popped(t)], t.currq, t.qued[Taken(t) := false])
  {
    hide RingsAre, RingIs, Placed, NextRing, NextList, Inv;
    var q, p, fr, r, w := s.pc.q, Taken(t), Popped(t), t.rings[s.pc.q], l[s.pc.q];
    var rings', qued' := t.rings[q := fr], t.qued[p := false];
    RingOf(t.rings, l, q);
    RingSize(r, w, 0);
    var x := InLevel(l, t.currq, t.qued, p);
    RingOf(t.rings, l, x);
    if x != q {
      HoldsCleared(rings', x, l[x], t.currq, qued', p);
    } else if IsFront(w, p) {
      HeadFollows(s, lists);
      assert false;
    } else if fr.head == (r.head + 1) % 64 {
      PoppedIs(r, w);
      HoldsCleared(rings', q, w[1..], t.currq, qued', p);
    } else {
      TailMoves(r, w, s.pc.h);
      BadBreaks(rings', q, t.currq, qued');
    }
  }

  // ---- A timer interrupt when que_pop has stored the head and not the size ----

  /** A ring whose size can be one less held one process. */
  lemma {:induction false} OneCounted(r: Ring, q: seq<nat>, q': seq<nat>)
    requires RingIs(r, q, 0) && RingIs(r.(size := r.size - 1), q', 0)
    ensures |q| == 1 && q' == []
  {
  }

  lemma {:induction false} NowAt(lists: Queues, q: nat, x: nat, due: seq<bool>)
    requires |lists| == LEVELS && 0 < q < LEVELS
    ensures AllUp(Past(lists, q, x), q + 1, LEVELS, due)[q] ==
              if q + 1 < LEVELS then lists[q + 1][..Lead(lists[q + 1], due)] else []
  {
    AllUpAt(Past(lists, q, x), q + 1, LEVELS, due, q);
  }

  /** The process that has climbed to level `q` is in no other queue. */
  lemma {:induction false} Gone(lists: Queues, currq: seq<int>, qued: seq<bool>, out: int, q: nat, x: nat,
                                due: seq<bool>, y: nat, lv: nat)
    requires Placed(lists, currq, qued, out) && 0 < q && q + 1 < LEVELS && lv < LEVELS && lv != q
    requires Lead(lists[q + 1], due) == 1 && lists[q + 1][0] == y && y != x
    ensures y !in AllUp(Past(lists, q, x), q + 1, LEVELS, due)[lv]
  {
    hide Placed, AllUp;
    PlacedSizes(lists, currq, qued, out);
    OneQueue(lists, currq, qued, out, q + 1, y);
    NoRepeats(lists, currq, qued, out, q + 1);
    var l3 := Past(lists, q, x);
    AllUpAt(l3, q + 1, LEVELS, due, lv);
    assert y !in lists[q + 1][1..];
    if lv + 1 < LEVELS && lv > q { assert l3[lv + 1] == lists[lv + 1]; }
  }

  /** The pass takes the process behind the end of the queue, or meets a null pointer there; a
      size one less does not mend that. */
  lemma {:induction false} OverWrong(s: Sys, lists: Queues)
    requires Base(s, lists) && |lists| == LEVELS && Over(s) >= 0 && Overruns(s.rings, lists, s.pc.q, DueNext(s))
    requires !OnlyClimbs(lists, s.pc.q, s.rings[s.pc.q].procs[Last(s.rings[s.pc.q])], DueNext(s))
    ensures var t, q := TimerTick(s), s.pc.q;
            || t.pc.Crashed?
            || !Consistent(t.rings[q := t.rings[q].(size := t.rings[q].size - 1)], t.currq, t.qued[s.pc.p := false])
  {
    hide RingsAre, Placed, AllUp, Pass, Lower, Restart, Movers, Past, Lead;
    PlacedSizes(lists, s.currq, s.qued, Out(s));
    var q, due, x := s.pc.q, DueNext(s), s.rings[s.pc.q].procs[Last(s.rings[s.pc.q])];
    if x == -1 {
      RoomyAll(lists, s.currq, s.qued, Out(s), q);
      var rings' := PassOver(s.rings, lists, q, 1, due);
    } else {
      var rings', l2 := TimerOver(s, lists);
      var t, l3, c := TimerTick(s), Past(l2, q, x), Lower(s.currq, Movers(lists, 1, q, due));
      var l, u, qued' := AllUp(l3, q + 1, LEVELS, due), t.rings[q := t.rings[q].(size := t.rings[q].size - 1)],
          t.qued[s.pc.p := false];
      forall l' ensures !QueuesOk(u, l', t.currq, qued') {
        if QueuesOk(u, l', t.currq, qued') {
          RingOf(t.rings, l, q);
          RingOf(u, l', q);
          OneCounted(t.rings[q], l[q], l'[q]);
          NowAt(l2, q, x, due);
          var y := lists[q + 1][0];
          OneQueue(l2, c, s.qued, s.pc.p, q + 1, y);
          var lv := InLevel(l', t.currq, qued', y);
          Gone(l2, c, s.qued, s.pc.p, q, x, due, y, lv);
          RingOf(t.rings, l, lv);
          RingOf(u, l', lv);
          RingUnique(t.rings[lv], l[lv], l'[lv], 0);
          assert false;
        }
      }
    }
  }

  /** A pass comes to level `hi`, without going past the end of a queue. */
  lemma {:induction false} PassTo(rings: seq<Ring>, lists: Queues, over: int, lv: nat, hi: nat, due: seq<bool>)
    returns (rings': seq<Ring>)
    requires RingsAre(rings, lists, over) && 0 < lv <= hi <= over + 1 <= LEVELS && Roomy(lists, lv, over)
             && |due| == NPROC && Shape(rings)
    requires !Overruns(rings, lists, over, due)
    ensures Shape(rings') && RingsAre(rings', AllUp(lists, lv, hi, due), over) && SameEnd(rings'[over], rings[over])
    ensures Pass(rings, lv, due).rings == Pass(rings', hi, due).rings
    decreases hi - lv
  {
    hide RingIs, RingsAre, Climb, Lead;
    if lv == hi {
      rings' := rings;
    } else {
      ClimbOk(rings, lists, over, lv, due);
      rings' := PassTo(Climb(rings, lv, due).rings, Up(lists, lv, Lead(lists[lv], due)), over, lv + 1, hi, due);
    }
  }

  lemma {:induction false} PassAbove(rings: seq<Ring>, lv: nat, due: seq<bool>)
    requires Shape(rings) && 0 < lv < LEVELS && |due| == NPROC
    ensures Pass(rings, lv, due).rings[lv - 1] == Climb(rings, lv, due).rings[lv - 1]
  {
  }

  lemma {:induction false} LooseStays(r: Ring, r': Ring)
    requires RingIs(r, [], 1) && !Snug(r) && RingIs(r', [], 1) && SameEnd(r', r)
    ensures r'.size == 1 && r'.tail != r'.head
  {
  }

  /** A ring whose tail does not follow its queue is given processes. */
  lemma {:induction false} LooseWrong(s: Sys, lists: Queues)
    requires Base(s, lists) && |lists| == LEVELS && Over(s) >= 0 && !Overruns(s.rings, lists, s.pc.q, DueNext(s))
    requires !Snug(s.rings[s.pc.q]) && Coming(lists, s.pc.q, DueNext(s)) != []
    ensures var r := TimerTick(s).rings[s.pc.q];
            r.size == 1 + |Coming(lists, s.pc.q, DueNext(s))| && BadRing(r.(size := r.size - 1))
  {
    hide RingsAre, Placed, AllUp, Pass, Climb, Lower, Restart, Movers, Lead, Overruns, RingIs, Snug, PushMany;
    var q, due := s.pc.q, DueNext(s);
    PlacedSizes(lists, s.currq, s.qued, Out(s));
    RoomyAll(lists, s.currq, s.qued, Out(s), q);
    var rings' := PassTo(s.rings, lists, q, 1, q + 1, due);
    OverRing(s.rings, lists, q);
    LooseRing(s.rings[q], lists[q]);
    Room(lists, s.currq, s.qued, Out(s), q, q + 1);
    LooseClimb(s.rings, lists, rings', q, due);
  }

  lemma {:induction false} LooseClimb(rings: seq<Ring>, lists: Queues, rings': seq<Ring>, q: nat, due: seq<bool>)
    requires Shape(rings) && |lists| == LEVELS && q + 1 < LEVELS && |due| == NPROC && Shape(rings')
    requires RingIs(rings[q], [], 1) && !Snug(rings[q]) && lists[q] == [] && 1 + |lists[q + 1]| <= NPROC
    requires RingsAre(rings', AllUp(lists, 1, q + 1, due), q) && SameEnd(rings'[q], rings[q])
    requires Coming(lists, q, due) != []
    ensures var r := Pass(rings', q + 1, due).rings[q];
            r.size == 1 + |Coming(lists, q, due)| && BadRing(r.(size := r.size - 1))
  {
    hide RingsAre, AllUp, Pass, Climb, Lead, RingIs, Snug, PushMany, PopMany, SameEnd, BadRing;
    var l, ps := AllUp(lists, 1, q + 1, due), Coming(lists, q, due);
    OverRing(rings', l, q);
    LooseLists(lists, q, due);
    LooseStays(rings[q], rings'[q]);
    ClimbRings(rings', q + 1, lists[q + 1], due);
    PassAbove(rings', q + 1, due);
    LooseEnd(rings'[q], ps);
  }

  lemma {:induction false} LooseLists(lists: Queues, q: nat, due: seq<bool>)
    requires |lists| == LEVELS && q + 1 < LEVELS && lists[q] == []
    ensures AllUp(lists, 1, q + 1, due)[q] == [] && AllUp(lists, 1, q + 1, due)[q + 1] == lists[q + 1]
    ensures |Coming(lists, q, due)| <= |lists[q + 1]|
  {
    hide AllUp, Lead;
    AllUpAt(lists, 1, q + 1, due, q);
    AllUpAt(lists, 1, q + 1, due, q + 1);
  }

  lemma {:induction false} LooseEnd(r: Ring, ps: seq<nat>)
    requires Shaped(r) && r.size == 1 && r.tail != r.head && 0 < |ps| < NPROC
    requires forall i :: 0 <= i < |ps| ==> ps[i] < NPROC
    ensures var r' := PushMany(r, ps); r'.size == 1 + |ps| && BadRing(r'.(size := r'.size - 1))
  {
    PushedOn(r, ps, 0);
  }

  lemma {:induction false} TimerCounts(s: Sys, lists: Queues)
    requires Base(s, lists) && Over(s) >= 0
    ensures var t := TimerTick(s); t.qued == s.qued && Total(t.rings) == |Flagged(t.qued)|
  {
    hide RingsAre, Placed, Pass, Lower, Restart, Total;
    AllCounted(s.rings, lists, s.currq, s.qued, Over(s), Out(s));
    PassTotal(s.rings, 1, DueNext(s));
  }

  lemma {:induction false} CrashedStays(t: Sys)
    requires WellShaped(t) && t.pc.Crashed?
    ensures !Sound(Finish(t))
  {
  }

  /** The size is stored that was loaded before the pass, and the pass has changed it. */
  lemma {:induction false} SizeWrong(s: Sys, lists: Queues)
    requires Base(s, lists) && Over(s) >= 0 && s.pc.PkSize? && TimerTick(s).rings[s.pc.q].size != s.pc.n
    ensures !Sound(Finish(TimerTick(s)))
  {
    hide RingsAre, Placed, Finish, Consistent, Pass, Lower, Restart;
    var t := TimerTick(s);
    TimerCounts(s, lists);
    if !t.pc.Crashed? {
      FinishPop(t);
      Miscounted(t.rings, t.qued, t.currq, t.pc.q, Popped(t), t.pc.p);
    } else {
      CrashedStays(t);
    }
  }

  /** The size is stored that fits the ring after the pass. */
  lemma {:induction false} SizeRight(s: Sys, t: Sys)
    requires WellShaped(s) && WellShaped(t) && (t.pc.Crashed? || t.pc == s.pc)
    requires s.pc.PkLoad? || (s.pc.PkSize? && t.rings[s.pc.q].size == s.pc.n)
    requires var q := s.pc.q;
             || t.pc.Crashed?
             || !Consistent(t.rings[q := t.rings[q].(size := t.rings[q].size - 1)], t.currq, t.qued[s.pc.p := false])
    ensures !Sound(Finish(t))
  {
    hide Finish, Consistent;
    if !t.pc.Crashed? {
      FinishPop(t);
    } else {
      CrashedStays(t);
    }
  }

  lemma {:induction false} OverBreaks(s: Sys, lists: Queues)
    requires Inv(s, lists) && Over(s) >= 0 && Overruns(s.rings, lists, s.pc.q, DueNext(s))
    requires || !OnlyClimbs(lists, s.pc.q, s.rings[s.pc.q].procs[Last(s.rings[s.pc.q])], DueNext(s))
             || (s.pc.PkSize? && lists[s.pc.q] != [])
    ensures !Sound(Finish(TimerTick(s)))
  {
    hide RingIs, Placed, Finish, Consistent, Pass, Lower, Restart, Overruns;
    var t, q, due := TimerTick(s), s.pc.q, DueNext(s);
    if OnlyClimbs(lists, q, s.rings[q].procs[Last(s.rings[q])], due) {
      var l := TimerJumps(s, lists);
      OverRing(s.rings, lists, q);
      OverRing(t.rings, l, q);
      RingSize(s.rings[q], lists[q], 1);
      RingSize(t.rings[q], [], 1);
      SizeWrong(s, lists);
    } else if s.pc.PkSize? && t.rings[q].size != s.pc.n {
      SizeWrong(s, lists);
    } else {
      OverWrong(s, lists);
      SizeRight(s, t);
    }
  }

  lemma {:induction false} LoadBreaks(s: Sys, lists: Queues)
    requires Inv(s, lists) && s.pc.PkLoad? && !Overruns(s.rings, lists, s.pc.q, DueNext(s))
    requires !Snug(s.rings[s.pc.q]) && Coming(lists, s.pc.q, DueNext(s)) != []
    ensures !Sound(Finish(TimerTick(s)))
  {
    hide RingsAre, Placed, Finish, Consistent, Pass, Lower, Restart, Overruns, Snug;
    var t, q := TimerTick(s), s.pc.q;
    LooseWrong(s, lists);
    BadBreaks(t.rings[q := t.rings[q].(size := t.rings[q].size - 1)], q, t.currq, t.qued[s.pc.p := false]);
    SizeRight(s, t);
  }

  lemma {:induction false} SizeBreaks(s: Sys, lists: Queues)
    requires Inv(s, lists) && Over(s) >= 0 && s.pc.PkSize? && !Overruns(s.rings, lists, s.pc.q, DueNext(s))
    requires |NextList(lists, s.pc.q, DueNext(s))| != |lists[s.pc.q]|
    ensures !Sound(Finish(TimerTick(s)))
  {
    hide RingIs, Placed, Finish, TimerTick, Overruns, Snug, AllUp, NextList;
    var t, q, due := TimerTick(s), s.pc.q, DueNext(s);
    OverRing(s.rings, lists, q);
    RingSize(s.rings[q], lists[q], 1);
    LooseRing(s.rings[q], lists[q]);
    if Coming(lists, q, due) != [] && !Snug(s.rings[q]) {
      LooseWrong(s, lists);
    } else {
      TimerPass(s, lists);
      NextListIs(lists, q, due);
      OverRing(t.rings, AllUp(lists, 1, LEVELS, due), q);
      RingSize(t.rings[q], AllUp(lists, 1, LEVELS, due)[q], 1);
    }
    SizeWrong(s, lists);
  }

  /** que_pop is going to store size 0 and clear no flag, and processes have come to the level. */
  lemma {:induction false} StaleBreaks(s: Sys, lists: Queues)
    requires Inv(s, lists) && Over(s) == -1 && s.pc.PkSize? && NextList(lists, s.pc.q, DueNext(s)) != []
    ensures !Sound(Finish(TimerTick(s)))
  {
    hide RingIs, Placed, Finish, TimerTick, AllUp, NextList, NextRing, Consistent;
    var t, q, l := TimerTick(s), s.pc.q, AllUp(lists, 1, LEVELS, DueNext(s));
    TimerPlain(s, lists);
    AllCounted(t.rings, l, t.currq, t.qued, -1, -1);
    RingOf(t.rings, l, q);
    RingSize(t.rings[q], l[q], 0);
    FinishPop(t);
    Miscounted(t.rings, t.qued, t.currq, q, Popped(t), t.pc.p);
  }

  // ---- Theorems ----

  lemma {:induction false} TimerBreaks(s: Sys, lists: Queues)
    requires Inv(s, lists) && Harmful(s, Timer)
    ensures !Sound(Finish(TimerTick(s)))
  {
    hide RingsAre, Placed, TimerTick, Lists, Finish, Overruns, Snug, OnlyClimbs, Fits, NextRing, NextList, Known;
    InvLists(s, lists);
    if s.pc.PkLoad? || s.pc.PkSize? {
      TailBreaks(s, lists);
    } else {
      TimerPlain(s, lists);
      if Pops(s.pc) {
        PopBreaks(s, lists);
      } else {
        LevelBreaks(s, lists);
      }
    }
  }

  lemma {:induction false} LevelBreaks(s: Sys, lists: Queues)
    requires Inv(s, lists) && AtLevel(s.pc) && !Pops(s.pc)
    requires var q, due := s.pc.q, DueNext(s);
             !Fits(s.pc, s.code, s.qued, due, NextList(lists, q, due), NextRing(s.rings, lists, q, due))
    ensures !Sound(Finish(TimerTick(s)))
  {
    hide RingsAre, Placed, TimerTick, Finish, NextRing, NextList;
    TimerPlain(s, lists);
    var t, l := TimerTick(s), AllUp(lists, 1, LEVELS, DueNext(s));
    if Looks(s.pc) { LookBreaks(t, l); } else { EmptyBreaks(t, l); }
  }

  lemma {:induction false} TailBreaks(s: Sys, lists: Queues)
    requires Inv(s, lists) && Harmful(s, Timer) && (s.pc.PkLoad? || s.pc.PkSize?)
    ensures !Sound(Finish(TimerTick(s)))
  {
    hide RingsAre, Placed, TimerTick, Lists, Finish, Overruns, Snug, OnlyClimbs, NextRing;
    InvLists(s, lists);
    if Over(s) == -1 {
      StaleBreaks(s, lists);
    } else if Overruns(s.rings, lists, s.pc.q, DueNext(s)) {
      OverBreaks(s, lists);
    } else if s.pc.PkLoad? {
      LoadBreaks(s, lists);
    } else {
      SizeBreaks(s, lists);
    }
  }

  lemma {:induction false} SetBreaks(s: Sys, lists: Queues, p: nat, st: State)
    requires Inv(s, lists) && Enabled(s, SetState(p, st)) && Harmful(s, SetState(p, st))
    ensures !Sound(Finish(Next(s, SetState(p, st))))
  {
    hide RingsAre, Placed, Lists, Finish;
    InvLists(s, lists);
    LookBreaks(Next(s, SetState(p, st)), lists);
  }

  lemma {:induction false} StepBreaks(s: Sys, lists: Queues, a: Step)
    requires Inv(s, lists) && Enabled(s, a) && Harmful(s, a)
    ensures !Sound(Finish(Next(s, a)))
  {
    hide RingsAre, Placed, TimerTick, Lists, Finish, Overruns, Snug, OnlyClimbs, Fits, NextRing, NextList, Known;
    match a
    case Reap(p) => ReapBreaks(s, lists, p);
    case Timer => TimerBreaks(s, lists);
    case SetState(p, st) => SetBreaks(s, lists, p, st);
  }

  lemma {:induction false} ReapBreaks(s: Sys, lists: Queues, p: nat)
    requires Inv(s, lists) && Enabled(s, Reap(p)) && s.qued[p]
    ensures !Sound(Finish(Next(s, Reap(p))))
  {
    hide RingsAre, Placed;
    ReapIff(s.rings, lists, s.currq, s.qued, p);
  }

  /** No step of the run is harmful. */
  ghost predicate Harmless(r: Run) {
    r.Then? ==> Harmless(r.before) && !Harmful(End(r.before), r.a)
  }

  lemma {:induction false} BootInv(code: Code)
    ensures Inv(AtBoot(code), seq(LEVELS, _ => []))
  {
  }

  lemma {:induction false} HarmlessInv(r: Run) returns (lists: Queues)
    requires RunOk(r) && Harmless(r)
    ensures Inv(End(r), lists)
  {
    hide RingsAre, Placed, Inv, Next, Harmful, Enabled;
    if r.Boot? {
      BootInv(r.code);
      lists := seq(LEVELS, _ => []);
    } else {
      var l := HarmlessInv(r.before);
      lists := StepKeeps(End(r.before), l, r.a);
    }
  }

  /** Over every run: the queues are consistent wherever the interrupts stop coming if and only
      if no step of the run is harmful. */
  lemma {:induction false} SafeIff(r: Run)
    requires RunOk(r)
    ensures Safe(r) <==> Harmless(r)
  {
    hide RingsAre, Placed, Inv, Next, Harmful, Enabled, Sound, Finish;
    if r.Then? { SafeIff(r.before); }
    if r.Boot? || Harmless(r.before) {
      if Harmless(r) {
        var lists := HarmlessInv(r);
        FinishKeeps(End(r), lists);
      } else {
        var lists := HarmlessInv(r.before);
        StepBreaks(End(r.before), lists, r.a);
      }
    }
  }
}
