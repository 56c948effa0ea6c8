/** Runs of the scheduler that break the queues.  que_pop is compiled as it is written. */
module MlfqFailures {
  import opened MlfqQueues
  import opened MlfqRings
  import opened MlfqRuns

  // ---- Making runs ----

  ghost function Many(r: Run, a: Step, n: nat): Run {
    if n == 0 then r else Then(Many(r, a, n - 1), a)
  }

  /** The scheduler alone, for `n` steps. */
  function Threads(s: Sys, n: nat): (t: Sys)
    requires WellShaped(s)
    ensures WellShaped(t)
  {
    if n == 0 then s else Thread(Threads(s, n - 1))
  }

  lemma {:induction false} One(r: Run, a: Step)
    requires RunOk(r) && Enabled(End(r), a)
    ensures RunOk(Then(r, a)) && End(Then(r, a)) == Next(End(r), a)
  {
  }

  /** The scheduler has something to do. */
  predicate Goes(s: Sys) {
    !s.pc.OnCpu? && !s.pc.Crashed?
  }

  /** `n` steps of the scheduler lead from `s` to `t`. */
  ghost predicate Leads(s: Sys, n: nat, t: Sys) {
    WellShaped(s) && t == Threads(s, n) && forall k :: 0 <= k < n ==> Goes(Threads(s, k))
  }

  lemma {:induction false} LeadsOne(s: Sys)
    requires WellShaped(s) && Goes(s)
    ensures Leads(s, 1, Thread(s))
  {
    assert Threads(s, 0) == s && Threads(s, 1) == Thread(Threads(s, 0));
  }

  lemma {:induction false} LeadsOn(s: Sys, n: nat, t: Sys, m: nat, u: Sys)
    requires Leads(s, n, t) && Leads(t, m, u)
    ensures Leads(s, n + m, u)
    decreases m
  {
    hide Thread, WellShaped;
    if m > 0 {
      var v := Threads(t, m - 1);
      assert Leads(t, m - 1, v);
      LeadsOn(s, n, t, m - 1, v);
      assert Threads(s, n + m) == Thread(Threads(s, n + m - 1));
      assert Goes(Threads(t, m - 1));
      forall k | 0 <= k < n + m ensures Goes(Threads(s, k)) {
        if k == n + m - 1 { assert Threads(s, k) == v; }
      }
    }
  }

  lemma {:induction false} ManyEnds(r: Run, n: nat, t: Sys)
    requires RunOk(r) && Leads(End(r), n, t)
    ensures RunOk(Many(r, Sched, n)) && End(Many(r, Sched, n)) == t
  {
    hide Thread, WellShaped, Leads, RunOk, End;
    if n > 0 {
      var v := LeadsBack(End(r), n, t);
      ManyEnds(r, n - 1, v);
      One(Many(r, Sched, n - 1), Sched);
    } else {
      LeadsNowhere(End(r), t);
    }
  }

  lemma {:induction false} LeadsBack(s: Sys, n: nat, t: Sys) returns (v: Sys)
    requires Leads(s, n, t) && n > 0
    ensures WellShaped(v) && Leads(s, n - 1, v) && Goes(v) && t == Thread(v)
  {
    hide Thread;
    v := Threads(s, n - 1);
  }

  lemma {:induction false} LeadsNowhere(s: Sys, t: Sys)
    requires Leads(s, 0, t)
    ensures t == s
  {
  }

  // ---- Stretches of the scheduler in which nothing happens ----

  lemma {:induction false} SkipLevels(s: Sys, n: nat)
    requires WellShaped(s) && s.pc.SwTest? && s.pc.q + n <= LEVELS
    requires forall lv :: s.pc.q <= lv < LEVELS ==> s.rings[lv].size == 0
    ensures Leads(s, n, s.(pc := SwTest(s.pc.q + n)))
    decreases n
  {
    hide Leads;
    if n == 0 {
      LeadsNone(s);
    } else {
      LeadsOne(s);
      var t := s.(pc := SwTest(s.pc.q + 1));
      assert Thread(s) == t;
      SkipLevels(t, n - 1);
      LeadsOn(s, 1, t, n - 1, s.(pc := SwTest(s.pc.q + n)));
    }
  }

  lemma {:induction false} LeadsNone(s: Sys)
    requires WellShaped(s)
    ensures Leads(s, 0, s)
  {
  }

  lemma {:induction false} SkipProcs(s: Sys, n: nat)
    requires WellShaped(s) && s.pc.Enq? && s.pc.i + n <= NPROC
    requires forall p :: 0 <= p < NPROC && s.state[p] == Runnable ==> s.qued[p]
    ensures Leads(s, n, s.(pc := Enq(s.pc.i + n)))
    decreases n
  {
    hide Leads, Enqueue;
    if n == 0 {
      LeadsNone(s);
    } else {
      LeadsOne(s);
      var t := s.(pc := Enq(s.pc.i + 1));
      assert Thread(s) == t;
      SkipProcs(t, n - 1);
      LeadsOn(s, 1, t, n - 1, s.(pc := Enq(s.pc.i + n)));
    }
  }

  /** From the test of level `q` on, all levels below being empty and all processes queued that
      have to be, to the dispatch. */
  lemma {:induction false} ToDispatch(s: Sys)
    requires WellShaped(s) && s.pc.SwTest?
    requires forall lv :: s.pc.q <= lv < LEVELS ==> s.rings[lv].size == 0
    requires forall p :: 0 <= p < NPROC && s.state[p] == Runnable ==> s.qued[p]
    ensures Leads(s, LEVELS - s.pc.q + 66, s.(pc := PkTest(0)))
  {
    hide Leads;
    var n := LEVELS - s.pc.q;
    SkipLevels(s, n);
    var t := s.(pc := SwTest(LEVELS));
    var u := s.(pc := Enq(0));
    LeadsOne(t);
    assert Thread(t) == u;
    LeadsOn(s, n, t, 1, u);
    SkipProcs(u, NPROC);
    var v := s.(pc := Enq(NPROC));
    LeadsOn(s, n + 1, u, NPROC, v);
    LeadsOne(v);
    assert Thread(v) == s.(pc := PkTest(0));
    LeadsOn(s, n + 65, v, 1, s.(pc := PkTest(0)));
  }

  /** que_pop of level 0 up to the store of the size. */
  lemma {:induction false} ToStore(s: Sys, p: nat)
    requires WellShaped(s) && s.pc == PkTest(0) && s.code == Code(true, true) && s.rings[0].size == 1
    requires Front(s.rings[0]) == p
    ensures var r := s.rings[0];
            Leads(s, 7, s.(rings := s.rings[0 := r.(head := (r.head + 1) % 64)], pc := PkSize(0, 1, p)))
  {
    hide Leads;
    var r := s.rings[0];
    var s1, s2, s3, s4 := s.(pc := PkPop(0)), s.(pc := PkFront(0, 1)), s.(pc := PkRead(0, 1, r.head)),
        s.(pc := PkAgain(0, 1, p));
    LeadsOne(s);
    LeadsOne(s1);
    LeadsOn(s, 1, s1, 1, s2);
    LeadsOne(s2);
    LeadsOn(s, 2, s2, 1, s3);
    LeadsOne(s3);
    LeadsOn(s, 3, s3, 1, s4);
    var s5, t := s.(pc := PkHead(0, 1, r.head, p)), s.(rings := s.rings[0 := r.(head := (r.head + 1) % 64)]);
    LeadsOne(s4);
    LeadsOn(s, 4, s4, 1, s5);
    LeadsOne(s5);
    LeadsOn(s, 5, s5, 1, t.(pc := PkLoad(0, p)));
    LeadsOne(t.(pc := PkLoad(0, p)));
    LeadsOn(s, 6, t.(pc := PkLoad(0, p)), 1, t.(pc := PkSize(0, 1, p)));
  }

  /** The pass finds nothing to move. */
  lemma {:induction false} PassIdle(rings: seq<Ring>, lv: nat, due: seq<bool>)
    requires Shape(rings) && 0 < lv <= LEVELS && |due| == NPROC
    requires forall x :: lv <= x < LEVELS ==>
               rings[x].size == 0 || (rings[x].size > 0 && Front(rings[x]) >= 0 && !due[Front(rings[x])])
    ensures Pass(rings, lv, due) == Moves(rings, [], true)
    decreases LEVELS - lv
  {
    if lv < LEVELS { PassIdle(rings, lv + 1, due); }
  }

  // ---- Process 0 is dispatched ----

  /** Only process 0 exists; all queues are empty but level 0 while it is `queued`. */
  ghost predicate Alone(s: Sys, st: State, queued: bool) {
    && WellShaped(s) && s.code == Code(true, true) && s.ticks == 0
    && s.state[0] == st && s.qued[0] == queued && s.currq[0] == 0 && s.rticks[0] == 0
    && (queued ==> s.rings[0].size == 1 && Front(s.rings[0]) == 0)
    && (forall lv :: 0 <= lv < LEVELS && (lv > 0 || !queued) ==> s.rings[lv].size == 0)
    && (forall p :: 1 <= p < NPROC ==> s.state[p] == Unused)
  }

  /** Process 0 exists and is RUNNABLE. */
  ghost function Ready(): Run {
    Then(Then(Boot(Code(true, true)), Alloc(0)), SetState(0, Runnable))
  }

  lemma {:induction false} ReadyEnd()
    ensures RunOk(Ready()) && Alone(End(Ready()), Runnable, true) && End(Ready()).pc == Start
  {
    var b := Boot(Code(true, true));
    One(b, Alloc(0));
    One(Then(b, Alloc(0)), SetState(0, Runnable));
  }

  ghost function Dispatched(): Run {
    Many(Ready(), Sched, 80)
  }

  lemma {:induction false} AloneRuns(s: Sys) returns (t: Sys)
    requires Alone(s, Runnable, true) && s.pc == Start
    ensures Leads(s, 80, t) && Alone(t, Running, false) && t.pc == OnCpu(0)
  {
    hide Leads;
    var s1, s2 := s.(pc := SwTest(1)), s.(pc := PkTest(0));
    LeadsOne(s);
    ToDispatch(s1);
    LeadsOn(s, 1, s1, 70, s2);
    ToStore(s2, 0);
    var r := s.rings[0];
    var s3 := s.(rings := s.rings[0 := r.(head := (r.head + 1) % 64)], pc := PkSize(0, 1, 0));
    LeadsOn(s, 71, s2, 7, s3);
    var s4 := Thread(s3);
    t := Thread(s4);
    LeadsOne(s3);
    LeadsOne(s4);
    LeadsOn(s, 78, s3, 1, s4);
    LeadsOn(s, 79, s4, 1, t);
  }

  lemma {:induction false} DispatchedEnd()
    ensures RunOk(Dispatched()) && Alone(End(Dispatched()), Running, false) && End(Dispatched()).pc == OnCpu(0)
  {
    hide Leads, Alone, RunOk, End, Many, Ready;
    ReadyEnd();
    var t := AloneRuns(End(Ready()));
    ManyEnds(Ready(), 80, t);
  }

  // ---- A fork that fails ----

  lemma {:induction false} SchedHarmless(r: Run, n: nat)
    requires Harmless(r)
    ensures Harmless(Many(r, Sched, n))
  {
    hide Lists, Fits, Overruns, NextRing, NextList;
    if n > 0 { SchedHarmless(r, n - 1); }
  }

  lemma {:induction false} DispatchedHarmless()
    ensures Harmless(Dispatched())
  {
    hide Lists, Fits, Overruns, NextRing, NextList;
    var b := Boot(Code(true, true));
    assert Harmless(b);
    assert Harmless(Then(b, Alloc(0)));
    ReadyHarmless();
    SchedHarmless(Ready(), 80);
  }

  lemma {:induction false} ReadyHarmless()
    ensures !Harmful(End(Then(Boot(Code(true, true)), Alloc(0))), SetState(0, Runnable))
  {
    One(Boot(Code(true, true)), Alloc(0));
  }

  /** fork calls freeproc on the process that allocproc has just queued, when there is no
      memory to copy into. */
  lemma {:induction false} ForkFails()
    ensures var r := Then(Then(Dispatched(), Alloc(1)), Reap(1));
            RunOk(r) && !Safe(r) && Safe(r.before)
  {
    hide Finish, Dispatched, End, Next, Alone, Enabled, Lists, Overruns, Fits, NextRing, NextList;
    DispatchedEnd();
    DispatchedHarmless();
    var r1 := Then(Dispatched(), Alloc(1));
    AloneForks(End(Dispatched()));
    One(Dispatched(), Alloc(1));
    One(r1, Reap(1));
    assert Harmless(r1);
    SafeIff(Then(r1, Reap(1)));
    SafeIff(r1);
  }

  lemma {:induction false} AloneForks(s: Sys)
    requires Alone(s, Running, false) && s.pc == OnCpu(0)
    ensures Enabled(s, Alloc(1))
    ensures var t := Next(s, Alloc(1)); Enabled(t, Reap(1)) && Harmful(t, Reap(1))
  {
  }

  // ---- Process 0 uses up its slice and waits at level 1 ----

  ghost function Demoted(): Run {
    Then(Then(Then(Then(Dispatched(), Timer), Demote(false)), SetState(0, Runnable)), PutBack)
  }

  /** Process 0 alone, waiting at level 1 since tick 1. */
  ghost predicate Waits(s: Sys) {
    && WellShaped(s) && s.code == Code(true, true) && s.pc == Start
    && s.rings[1].size == 1 && Front(s.rings[1]) == 0
    && (forall lv :: 0 <= lv < LEVELS && lv != 1 ==> s.rings[lv].size == 0)
    && s.state[0] == Runnable && s.enter[0] == 1 && s.currq[0] == 1 && s.qued[0]
    && (forall p :: 1 <= p < NPROC ==> s.state[p] == Unused)
  }

  lemma {:induction false} AloneTicks(s: Sys)
    requires Alone(s, Running, false) && s.pc == OnCpu(0)
    ensures Enabled(s, Timer) && TimerTick(s) == s.(rticks := Charged(s.rticks, s.state), ticks := 1)
  {
    hide Pass, Lower, Restart, Charged;
    PassIdle(s.rings, 1, DueNext(s));
    LowerNone(s.currq, Charged(s.rticks, s.state));
  }

  lemma {:induction false} DemotedEnd()
    ensures RunOk(Demoted()) && Waits(End(Demoted())) && End(Demoted()).ticks == 1
  {
    hide Thread, Dispatched, TimerTick, Pass, Alone, RunOk, End;
    DispatchedEnd();
    var r := Dispatched();
    var s := End(r);
    AloneTicks(s);
    One(r, Timer);
    var r1 := Then(r, Timer);
    AloneWaits(s, End(r1));
    One(r1, Demote(false));
    var r2 := Then(r1, Demote(false));
    One(r2, SetState(0, Runnable));
    One(Then(r2, SetState(0, Runnable)), PutBack);
  }

  lemma {:induction false} AloneWaits(s: Sys, t: Sys)
    requires Alone(s, Running, false) && s.pc == OnCpu(0) && t == s.(rticks := Charged(s.rticks, s.state), ticks := 1)
    ensures Enabled(t, Demote(false))
    ensures var t1 := Next(t, Demote(false));
            && Enabled(t1, SetState(0, Runnable))
            && var t2 := Next(t1, SetState(0, Runnable));
               Enabled(t2, PutBack) && Waits(Next(t2, PutBack)) && Next(t2, PutBack).ticks == 1
  {
    var t1 := Next(t, Demote(false));
    assert t1.currq[0] == 1 && Slice(0) == 1;
  }

  lemma {:induction false} WaitOne(s: Sys)
    requires Waits(s) && 1 <= s.ticks <= 30
    ensures TimerTick(s) == s.(ticks := s.ticks + 1)
  {
    hide Pass, Lower, Restart, Charged;
    PassIdle(s.rings, 1, DueNext(s));
    LowerNone(s.currq, s.rticks);
    NoneCharged(s.rticks, s.state);
  }

  lemma {:induction false} NoneCharged(rticks: seq<nat>, state: seq<State>)
    requires |rticks| == |state| && forall p :: 0 <= p < |state| ==> state[p] != Running
    ensures Charged(rticks, state) == rticks
  {
  }

  lemma {:induction false} WaitMany(r: Run, n: nat)
    requires RunOk(r) && Waits(End(r)) && End(r).ticks == 1 && n <= 30
    ensures RunOk(Many(r, Timer, n)) && End(Many(r, Timer, n)) == End(r).(ticks := 1 + n)
  {
    hide TimerTick, WellShaped, End, RunOk;
    if n > 0 {
      WaitMany(r, n - 1);
      var s := End(Many(r, Timer, n - 1));
      StillWaits(End(r), n);
      WaitOne(s);
      One(Many(r, Timer, n - 1), Timer);
    }
  }

  lemma {:induction false} StillWaits(s: Sys, ticks: nat)
    requires Waits(s)
    ensures Waits(s.(ticks := ticks)) && Enabled(s.(ticks := ticks), Timer)
  {
  }

  /** Process 0 has waited at level 1 for 30 ticks. */
  ghost function Waited(): Run {
    Many(Demoted(), Timer, 30)
  }

  lemma {:induction false} WaitedEnd()
    ensures RunOk(Waited()) && Waits(End(Waited())) && End(Waited()).ticks == 31
  {
    hide RunOk, End, Demoted, Many;
    DemotedEnd();
    WaitMany(Demoted(), 30);
  }

  /** queue_switch looks at the front of level 1. */
  lemma {:induction false} ToAct(s: Sys)
    requires WellShaped(s) && s.pc == Start && s.rings[1].size == 1 && Front(s.rings[1]) == 0
    ensures Leads(s, 5, s.(pc := SwAct(1, 0)))
  {
    hide Leads;
    var h := s.rings[1].head;
    LeadsOne(s);
    LeadsOne(s.(pc := SwTest(1)));
    LeadsOn(s, 1, s.(pc := SwTest(1)), 1, s.(pc := SwFront(1)));
    LeadsOne(s.(pc := SwFront(1)));
    LeadsOn(s, 2, s.(pc := SwFront(1)), 1, s.(pc := SwHead(1)));
    LeadsOne(s.(pc := SwHead(1)));
    LeadsOn(s, 3, s.(pc := SwHead(1)), 1, s.(pc := SwProc(1, h)));
    LeadsOne(s.(pc := SwProc(1, h)));
    LeadsOn(s, 4, s.(pc := SwProc(1, h)), 1, s.(pc := SwAct(1, 0)));
  }

  lemma {:induction false} PassOne(rings: seq<Ring>, due: seq<bool>)
    requires Shape(rings) && |due| == NPROC && rings[1].size == 1 && Front(rings[1]) == 0 && due[0]
    requires forall lv :: 2 <= lv < LEVELS ==> rings[lv].size == 0
    ensures Pass(rings, 1, due) == Moves(rings[1 := Pop(rings[1])][0 := Push(rings[0], 0)], [0], true)
  {
    var rings' := rings[1 := Pop(rings[1])][0 := Push(rings[0], 0)];
    assert Climb(rings', 1, due) == Moves(rings', [], true);
    assert Climb(rings, 1, due) == Moves(rings', [0], true);
    PassIdle(rings', 2, due);
  }

  lemma {:induction false} LowerOne(currq: seq<int>)
    requires 0 < |currq|
    ensures Lower(currq, [0]) == currq[0 := currq[0] - 1]
  {
    assert [0][1..] == [];
  }

  // ---- A process is moved up twice ----

  /** queue_switch has read the front of level 1 when the timer interrupt comes in whose pass
      moves that process up; then it moves it up again. */
  ghost function MovedTwice(): Run {
    Then(Then(Many(Waited(), Sched, 5), Timer), Sched)
  }

  lemma {:induction false} TwoLevelsUp()
    ensures RunOk(MovedTwice()) && !Safe(MovedTwice()) && End(MovedTwice()).currq[0] == -1
  {
    hide Waited, Finish, Waits, End, RunOk, Thread, TimerTick, Enabled, Lists, Overruns, Many, Leads, Safe, Harmful;
    WaitedEnd();
    var s := End(Waited());
    WaitsFacts(s);
    ToAct(s);
    var t := s.(pc := SwAct(1, 0));
    ManyEnds(Waited(), 5, t);
    var w := Many(Waited(), Sched, 5);
    ActAgain(t);
    One(w, Timer);
    One(Then(w, Timer), Sched);
    BrokenEnd(Then(Then(w, Timer), Sched));
  }

  lemma {:induction false} WaitsFacts(s: Sys)
    requires Waits(s)
    ensures WellShaped(s) && s.pc == Start && s.rings[1].size == 1 && Front(s.rings[1]) == 0
    ensures Waits(s.(pc := SwAct(1, 0)).(pc := Start))
  {
  }

  lemma {:induction false} ActAgain(t: Sys)
    requires Waits(t.(pc := Start)) && t.ticks == 31 && t.pc == SwAct(1, 0)
    ensures Enabled(t, Timer)
    ensures var u := TimerTick(t); Enabled(u, Sched) && Thread(u).currq[0] == -1 && ToDo(Thread(u).pc) == 0
  {
    AgainTicks(t);
    hide TimerTick, Charged, Lower, Restart;
    var u := TimerTick(t);
    assert Thread(u) == Act(u, 1, 0);
  }

  lemma {:induction false} AgainTicks(t: Sys)
    requires Waits(t.(pc := Start)) && t.ticks == 31 && t.pc == SwAct(1, 0)
    ensures var u := TimerTick(t);
            u.pc == t.pc && u.state == t.state && u.enter == t.enter && u.ticks == 32 && u.currq == t.currq[0 := 0]
  {
    hide Pass, Lower, Restart, Charged;
    PassOne(t.rings, DueNext(t));
    LowerOne(t.currq);
  }

  /** A level that does not exist breaks the queues. */
  lemma {:induction false} BrokenEnd(r: Run)
    requires RunOk(r) && End(r).currq[0] < 0 && ToDo(End(r).pc) == 0
    ensures !Safe(r)
  {
    var s := End(r);
    assert Finish(s) == s;
    forall l ensures !QueuesOk(s.rings, l, s.currq, s.qued) {
      if QueuesOk(s.rings, l, s.currq, s.qued) {
        QueueSizes(s.rings, l, s.currq, s.qued);
        assert false;
      }
    }
  }

  // ---- A process is lost ----

  /** Process 1 is made and is RUNNABLE, at level 0.  que_pop of level 0 has loaded the size 1 when
      the timer interrupt comes in whose pass moves process 0 up to level 0; then it stores the
      size 0. */
  ghost function Lost(): Run {
    var r := Then(Then(Waited(), Alloc(1)), SetState(1, Runnable));
    Then(Then(Many(r, Sched, 82), Timer), Sched)
  }

  /** Process 0 waits at level 1 and process 1 at level 0. */
  ghost predicate Two(s: Sys) {
    && WellShaped(s) && s.code == Code(true, true) && s.ticks == 31
    && s.rings[1].size == 1 && Front(s.rings[1]) == 0 && s.rings[0].size == 1 && Front(s.rings[0]) == 1
    && (forall lv :: 2 <= lv < LEVELS ==> s.rings[lv].size == 0)
    && s.state[0] == Runnable && s.enter[0] == 1 && s.currq[0] == 1 && s.qued[0]
    && s.state[1] == Runnable && s.qued[1]
    && (forall p :: 2 <= p < NPROC ==> s.state[p] == Unused)
  }

  lemma {:induction false} WaitsTwo(s: Sys)
    requires Waits(s) && s.ticks == 31
    ensures Enabled(s, Alloc(1)) && Enabled(Next(s, Alloc(1)), SetState(1, Runnable))
    ensures var t := Next(Next(s, Alloc(1)), SetState(1, Runnable)); Two(t) && t.pc == Start
  {
  }

  lemma {:induction false} TwoRun(s: Sys)
    requires Two(s) && s.pc == Start
    ensures var r := s.rings[0];
            Leads(s, 82, s.(rings := s.rings[0 := r.(head := (r.head + 1) % 64)], pc := PkSize(0, 1, 1)))
  {
    hide Leads;
    ToAct(s);
    var s1, s2, s3 := s.(pc := SwAct(1, 0)), s.(pc := SwTest(2)), s.(pc := PkTest(0));
    LeadsOne(s1);
    assert Thread(s1) == s2;
    LeadsOn(s, 5, s1, 1, s2);
    ToDispatch(s2);
    LeadsOn(s, 6, s2, 69, s3);
    ToStore(s3, 1);
    var r := s.rings[0];
    LeadsOn(s, 75, s3, 7, s.(rings := s.rings[0 := r.(head := (r.head + 1) % 64)], pc := PkSize(0, 1, 1)));
  }

  /** Process 0 is flagged as queued and RUNNABLE, and every queue is empty. */
  lemma {:induction false} LostEntry()
    ensures var s := End(Lost());
            && RunOk(Lost()) && !Safe(Lost())
            && s.qued[0] && s.state[0] == Runnable && forall lv :: 0 <= lv < LEVELS ==> s.rings[lv].size == 0
  {
    hide Waited, Finish, Waits, End, RunOk, Thread, TimerTick, Enabled, Lists, Overruns, Many, Leads, Safe, Harmful,
      Next;
    WaitedEnd();
    var w := Waited();
    var s := End(w);
    WaitsTwo(s);
    One(w, Alloc(1));
    One(Then(w, Alloc(1)), SetState(1, Runnable));
    var r := Then(Then(w, Alloc(1)), SetState(1, Runnable));
    var t := End(r);
    TwoRun(t);
    var u := t.(rings := t.rings[0 := t.rings[0].(head := (t.rings[0].head + 1) % 64)], pc := PkSize(0, 1, 1));
    ManyEnds(r, 82, u);
    StoredAfter(t, u);
    var m := Many(r, Sched, 82);
    One(m, Timer);
    One(Then(m, Timer), Sched);
    EmptyEnd(Lost());
  }

  lemma {:induction false} StoredAfter(s: Sys, t: Sys)
    requires Two(s)
    requires t == s.(rings := s.rings[0 := s.rings[0].(head := (s.rings[0].head + 1) % 64)], pc := PkSize(0, 1, 1))
    ensures WellShaped(t) && Enabled(t, Timer) && Enabled(Next(t, Timer), Sched)
    ensures var u := Next(Next(t, Timer), Sched);
            && u.qued[0] && u.state[0] == Runnable && u.pc == PkLock(0, 1)
            && forall lv :: 0 <= lv < LEVELS ==> u.rings[lv].size == 0
  {
    TwoTicks(s, t);
    hide TimerTick, Two, Thread;
    StoresSize(TimerTick(t));
  }

  lemma {:induction false} StoresSize(u: Sys)
    requires WellShaped(u) && u.pc == PkSize(0, 1, 1) && forall lv :: 1 <= lv < LEVELS ==> u.rings[lv].size == 0
    ensures Enabled(u, Sched)
    ensures var v := Thread(u);
            && v.pc == PkLock(0, 1) && v.state == u.state && v.qued == u.qued
            && forall lv :: 0 <= lv < LEVELS ==> v.rings[lv].size == 0
  {
  }

  lemma {:induction false} TwoTicks(s: Sys, t: Sys)
    requires Two(s)
    requires t == s.(rings := s.rings[0 := s.rings[0].(head := (s.rings[0].head + 1) % 64)], pc := PkSize(0, 1, 1))
    ensures WellShaped(t) && Enabled(t, Timer)
    ensures var u := TimerTick(t);
            && u.pc == t.pc && u.state == t.state && u.qued == t.qued && u.code == t.code && u.qued[0]
            && u.state[0] == Runnable && forall lv :: 1 <= lv < LEVELS ==> u.rings[lv].size == 0
  {
    hide Pass, Lower, Restart, Charged;
    assert DueNext(t)[0];
    PassOne(t.rings, DueNext(t));
    LowerOne(t.currq);
  }

  lemma {:induction false} EmptyEnd(r: Run)
    requires RunOk(r) && End(r).qued[0] && End(r).pc == PkLock(0, 1)
    requires forall lv :: 0 <= lv < LEVELS ==> End(r).rings[lv].size == 0
    ensures !Safe(r)
  {
    var s := End(r);
    var u := Thread(s);
    assert Finish(s) == Finish(u) && Finish(u) == u;
    forall l ensures !QueuesOk(u.rings, l, u.currq, u.qued) {
      if QueuesOk(u.rings, l, u.currq, u.qued) {
        QueueSizes(u.rings, l, u.currq, u.qued);
        var lv := InLevel(l, u.currq, u.qued, 0);
        assert false;
      }
    }
  }
}
