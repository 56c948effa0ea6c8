/** The scheduler without interrupts, step by step: from consistent queues it does exactly what
    the uninterrupted scheduler of Mlfq does. */
module MlfqQuiet {
  import opened MlfqQueues
  import opened MlfqRuns
  import opened MlfqFailures
  import opened Mlfq

  ghost function Know(s: Sys, lists: Queues): Procs {
    Procs(lists, s.state, s.currq, s.qued, s.enter, s.rticks)
  }

  lemma {:induction false} LeadsMore(s: Sys, n: nat, t: Sys)
    requires Leads(s, n, t) && Goes(t)
    ensures Leads(s, n + 1, Thread(t))
  {
    hide Thread, WellShaped;
    LeadsOne(t);
    LeadsOn(s, n, t, 1, Thread(t));
  }

  lemma {:induction false} LeadsNone(s: Sys)
    requires WellShaped(s)
    ensures Leads(s, 0, s)
  {
  }

  // ---- Aging ----

  /** que_empty, que_front and what queue_switch does with the process. */
  lemma {:induction false} LookUp(s: Sys, q: nat)
    requires WellShaped(s) && s.pc == SwTest(q) && 1 <= q < LEVELS && s.rings[q].size != 0 && Front(s.rings[q]) >= 0
    ensures Leads(s, 5, Act(s, q, Front(s.rings[q])))
  {
    hide Leads, Threads;
    var s1, s2, s3 := s.(pc := SwFront(q)), s.(pc := SwHead(q)), s.(pc := SwProc(q, s.rings[q].head));
    var s4 := s.(pc := SwAct(q, Front(s.rings[q])));
    LeadsOne(s);
    LeadsMore(s, 1, s1);
    LeadsMore(s, 2, s2);
    LeadsMore(s, 3, s3);
    LeadsMore(s, 4, s4);
  }

  /** The state after a climb or a pass. */
  ghost function After(s: Sys, o: Moves, pc: Pc): Sys
    requires WellShaped(s) && forall j :: 0 <= j < |o.moved| ==> o.moved[j] < NPROC
  {
    s.(rings := o.rings, currq := Lower(s.currq, o.moved), rticks := Restart(s.rticks, o.moved), pc := pc)
  }

  lemma {:induction false} LevelDone(s: Sys, q: nat) returns (n: nat)
    requires WellShaped(s) && s.pc == SwTest(q) && 1 <= q < LEVELS && Climb(s.rings, q, DueNow(s)).ok
    ensures Leads(s, n, After(s, Climb(s.rings, q, DueNow(s)), SwTest(q + 1)))
    decreases if s.rings[q].size < 0 then 0 else s.rings[q].size
  {
    hide Leads, Threads, Climb, Lower, Restart, Push, Pop, Aged;
    var due := DueNow(s);
    var o, p := Climb(s.rings, q, due), Front(s.rings[q]);
    ClimbRound(s.rings, q, due, s.currq, s.rticks);
    if s.rings[q].size == 0 {
      LeadsOne(s);
      n := 1;
    } else {
      LookUp(s, q);
      if due[p] {
        var s1 := Act(s, q, p);
        var k := LevelDone(s1, q);
        n := 5 + k;
        LeadsOn(s, 5, s1, k, After(s1, Climb(s1.rings, q, due), SwTest(q + 1)));
      } else {
        n := 5;
      }
    }
  }

  lemma {:induction false} PassDone(s: Sys, q: nat) returns (n: nat)
    requires WellShaped(s) && s.pc == SwTest(q) && 1 <= q <= LEVELS && Pass(s.rings, q, DueNow(s)).ok
    ensures Leads(s, n, After(s, Pass(s.rings, q, DueNow(s)), SwTest(LEVELS)))
    decreases LEVELS - q
  {
    hide Leads, Threads, Climb, Lower, Restart;
    if q == LEVELS {
      LowerNone(s.currq, s.rticks);
      LeadsNone(s);
      n := 0;
    } else {
      var due := DueNow(s);
      var a := Climb(s.rings, q, due);
      var k := LevelDone(s, q);
      var s1 := After(s, a, SwTest(q + 1));
      var m := PassDone(s1, q + 1);
      n := k + m;
      var b := Pass(a.rings, q + 1, due);
      LowerBoth(s.currq, a.moved, b.moved);
      RestartBoth(s.rticks, a.moved, b.moved);
      LeadsOn(s, k, s1, m, After(s1, b, SwTest(LEVELS)));
    }
  }

  // ---- Queueing ----

  /** The processes from `i` on are queued. */
  lemma {:induction false} EnqDone(s: Sys, i: nat, lists: Queues, up: Queues, qued0: seq<bool>, news0: Queues)
    returns (n: nat, t: Sys, lists': Queues, news: Queues)
    requires WellShaped(s) && s.pc == Enq(i) && i <= NPROC && QueuesOk(s.rings, lists, s.currq, s.qued)
    requires |lists| == |up| == |news0| == LEVELS && |qued0| == NPROC
    requires forall p :: i <= p < NPROC ==> s.qued[p] == qued0[p]
    requires forall x :: 0 <= x < LEVELS ==>
               lists[x] == up[x] + news0[x] && Newly(news0[x], x, s.state, qued0, s.currq, i)
    ensures Leads(s, n, t) && t.pc == PkTest(0) && t.code == s.code && t.ticks == s.ticks
    ensures t.state == s.state && t.currq == s.currq && QueuesOk(t.rings, lists', t.currq, t.qued)
    ensures |lists'| == |news| == LEVELS
    ensures forall x :: 0 <= x < LEVELS ==>
              lists'[x] == up[x] + news[x] && Newly(news[x], x, s.state, qued0, s.currq, NPROC)
    ensures |t.enter| == |t.rticks| == |t.qued| == NPROC
    ensures forall p :: 0 <= p < NPROC ==>
              var comes := i <= p && !s.qued[p] && s.state[p] == Runnable;
              && t.enter[p] == (if comes then s.ticks else s.enter[p])
              && t.rticks[p] == (if comes then 0 else s.rticks[p])
              && t.qued[p] == (comes || s.qued[p])
    decreases NPROC - i
  {
    hide Leads, Threads, RingsAre, Placed, Newly, Push;
    QueueSizes(s.rings, lists, s.currq, s.qued);
    LeadsOne(s);
    if i == NPROC {
      n, t, lists', news := 1, Thread(s), lists, news0;
    } else {
      var s1 := Thread(s);
      forall x | 0 <= x < LEVELS
        ensures Newly(if s.state[i] == Runnable && !qued0[i] && s.currq[i] == x then news0[x] + [i] else news0[x], x,
                      s.state, qued0, s.currq, i + 1)
      {
        NewlyNext(news0[x], x, s.state, qued0, s.currq, i);
      }
      var l1, w1 := lists, news0;
      if s.state[i] == Runnable && !s.qued[i] {
        EnqueueOk(s.rings, lists, s.currq, s.qued, i);
        var lv := s.currq[i];
        l1, w1 := lists[lv := lists[lv] + [i]], news0[lv := news0[lv] + [i]];
      }
      var m;
      m, t, lists', news := EnqDone(s1, i + 1, l1, up, qued0, w1);
      n := 1 + m;
      LeadsOn(s, 1, s1, m, t);
    }
  }

  // ---- Choosing ----

  /** The state after the first process of level `q` is popped and looked at. */
  ghost function Popped(s: Sys, q: nat): Sys
    requires WellShaped(s) && q < LEVELS && Front(s.rings[q]) >= 0
  {
    var p := Front(s.rings[q]);
    var t := s.(rings := s.rings[q := Pop(s.rings[q])], qued := s.qued[p := false]);
    if s.state[p] == Runnable then t.(state := s.state[p := Running], pc := OnCpu(p)) else t.(pc := PkTest(q))
  }

  /** que_empty and the loads of que_pop. */
  lemma {:induction false} PopLoads(s: Sys, q: nat) returns (n: nat)
    requires WellShaped(s) && s.pc == PkTest(q) && q < LEVELS && s.rings[q].size != 0 && Front(s.rings[q]) >= 0
    ensures Leads(s, n, s.(pc := PkHead(q, s.rings[q].size, s.rings[q].head, Front(s.rings[q]))))
  {
    hide Leads, Threads;
    var r, p := s.rings[q], Front(s.rings[q]);
    LeadsOne(s);
    LeadsMore(s, 1, s.(pc := PkPop(q)));
    LeadsMore(s, 2, s.(pc := PkFront(q, r.size)));
    LeadsMore(s, 3, s.(pc := PkRead(q, r.size, r.head)));
    n := 4;
    if s.code.headTwice {
      LeadsMore(s, 4, s.(pc := PkAgain(q, r.size, p)));
      n := 5;
    }
  }

  /** The stores of que_pop. */
  lemma {:induction false} PopStores(s: Sys, q: nat, h: nat, p: nat) returns (n: nat)
    requires WellShaped(s) && q < LEVELS && h < NPROC && p < NPROC && s.pc == PkHead(q, s.rings[q].size, h, p)
    ensures var r := s.rings[q];
            Leads(s, n, s.(rings := s.rings[q := r.(head := (h + 1) % 64, size := r.size - 1)], pc := PkLock(q, p)))
  {
    hide Leads, Threads;
    var r := s.rings[q];
    var r1 := r.(head := (h + 1) % 64);
    var s1 := s.(rings := s.rings[q := r1]);
    LeadsOne(s);
    n := 1;
    if s.code.sizeTwice {
      LeadsMore(s, 1, s1.(pc := PkLoad(q, p)));
      n := 2;
    }
    LeadsMore(s, n, s1.(pc := PkSize(q, r.size, p)));
    n := n + 1;
    assert s.rings[q := r1][q := r1.(size := r.size - 1)] == s.rings[q := r.(head := (h + 1) % 64, size := r.size - 1)];
  }

  /** que_empty, que_pop and the test of the process, however que_pop is compiled. */
  lemma {:induction false} PopFront(s: Sys, q: nat) returns (n: nat)
    requires WellShaped(s) && s.pc == PkTest(q) && q < LEVELS && s.rings[q].size != 0 && Front(s.rings[q]) >= 0
    ensures Leads(s, n, Popped(s, q))
  {
    hide Leads, Threads;
    var r, p := s.rings[q], Front(s.rings[q]);
    var a := PopLoads(s, q);
    var s1 := s.(pc := PkHead(q, r.size, r.head, p));
    var b := PopStores(s1, q, r.head, p);
    var s2 := s.(rings := s.rings[q := Pop(r)], pc := PkLock(q, p));
    LeadsOn(s, a, s1, b, s2);
    LeadsMore(s, a + b, s2);
    n := a + b + 1;
  }

  /** The search is at level `q`, of which the first `k` processes have been dropped. */
  ghost predicate Searching(s: Sys, lists: Queues, queues: Queues, q: nat, k: nat)
    requires WellShaped(s)
  {
    && s.pc == PkTest(q) && q <= LEVELS && |lists| == |queues| == LEVELS && QueuesOk(s.rings, lists, s.currq, s.qued)
    && (forall x :: 0 <= x < q ==> lists[x] == [] && NoRunnable(queues[x], s.state))
    && (forall x :: q < x < LEVELS ==> lists[x] == queues[x])
    && (q == LEVELS ==> k == 0)
    && (q < LEVELS ==> k <= |queues[q]| && lists[q] == queues[q][k..]
                       && FirstRunnable(queues[q], k, s.state) == FirstRunnable(queues[q], 0, s.state))
  }

  /** What the search ends with. */
  ghost predicate Found(s: Sys, t: Sys, lists': Queues, queues: Queues, lv: nat)
    requires WellShaped(s)
  {
    && |lists'| == |queues| == LEVELS && lv <= LEVELS && QueuesOk(t.rings, lists', t.currq, t.qued)
    && t.currq == s.currq && t.enter == s.enter && t.rticks == s.rticks && t.ticks == s.ticks
    && (forall x :: 0 <= x < lv ==> NoRunnable(queues[x], s.state) && lists'[x] == [])
    && (forall x :: lv < x < LEVELS ==> lists'[x] == queues[x])
    && (if lv == LEVELS then t.pc == Start && t.state == s.state
        else
          var k := FirstRunnable(queues[lv], 0, s.state);
          && k < |queues[lv]| && queues[lv][k] < NPROC && t.pc == OnCpu(queues[lv][k])
          && s.state[queues[lv][k]] == Runnable && t.state == s.state[queues[lv][k] := Running]
          && lists'[lv] == queues[lv][k + 1..])
  }

  lemma {:induction false} PickDone(s: Sys, lists: Queues, queues: Queues, q: nat, k: nat)
    returns (n: nat, t: Sys, lists': Queues, lv: nat)
    requires WellShaped(s) && Searching(s, lists, queues, q, k)
    ensures Leads(s, n, t) && Found(s, t, lists', queues, lv)
    decreases LEVELS - q, if q < LEVELS then |queues[q]| - k else 0
  {
    hide Leads, Threads, RingsAre, Placed, FirstRunnable, NoRunnable, Pop;
    QueueSizes(s.rings, lists, s.currq, s.qued);
    if q == LEVELS {
      LeadsOne(s);
      n, t, lists', lv := 1, Thread(s), lists, LEVELS;
    } else if lists[q] == [] {
      LeadsOne(s);
      FirstEnd(queues[q], k, s.state);
      NoneFirst(queues[q], s.state);
      var s1 := Thread(s);
      NextLevel(s, lists, queues, q, s1);
      var m;
      m, t, lists', lv := PickDone(s1, lists, queues, q + 1, 0);
      n := 1 + m;
      LeadsOn(s, 1, s1, m, t);
    } else {
      DequeueOk(s.rings, lists, s.currq, s.qued, q);
      var j := PopFront(s, q);
      var s1, p, l1 := Popped(s, q), lists[q][0], lists[q := lists[q][1..]];
      FirstNext(queues[q], k, s.state);
      assert queues[q][k..][0] == queues[q][k] && queues[q][k..][1..] == queues[q][k + 1..];
      if s.state[p] == Runnable {
        n, t, lists', lv := j, s1, l1, q;
      } else {
        var m;
        m, t, lists', lv := PickDone(s1, l1, queues, q, k + 1);
        n := j + m;
        LeadsOn(s, j, s1, m, t);
      }
    }
  }

  lemma {:induction false} NextLevel(s: Sys, lists: Queues, queues: Queues, q: nat, s1: Sys)
    requires WellShaped(s) && q < LEVELS == |queues| && Searching(s, lists, queues, q, |queues[q]|) && lists[q] == []
    requires NoRunnable(queues[q], s.state) && s1 == s.(pc := PkTest(q + 1))
    ensures WellShaped(s1) && Searching(s1, lists, queues, q + 1, 0)
  {
    hide FirstRunnable, NoRunnable;
    if q + 1 < LEVELS { assert queues[q + 1][0..] == queues[q + 1]; }
  }

  // ---- All of it ----

  /** queue_switch, from the first step of mlfq_scheduler. */
  lemma {:induction false} Aging(s: Sys, lists: Queues) returns (n: nat, t: Sys, up: Queues)
    requires WellShaped(s) && s.pc == Start && QueuesOk(s.rings, lists, s.currq, s.qued)
    ensures Leads(s, n, t) && WellShaped(t) && QueuesOk(t.rings, up, t.currq, t.qued)
    ensures t == s.(rings := t.rings, currq := t.currq, rticks := t.rticks, pc := Enq(0))
    ensures Passed(lists, s.currq, s.rticks, up, t.currq, t.rticks, Due(s.state, s.enter, s.ticks))
  {
    hide Leads, Threads, RingsAre, Placed, Pass, Lower, Restart, Movers, AllUp;
    QueueSizes(s.rings, lists, s.currq, s.qued);
    var due := DueNow(s);
    PassKeeps(s.rings, lists, s.currq, s.qued, due);
    var o := Pass(s.rings, 1, due);
    var s1 := s.(pc := SwTest(1));
    LeadsOne(s);
    var a := PassDone(s1, 1);
    var s2 := After(s1, o, SwTest(LEVELS));
    LeadsOn(s, 1, s1, a, s2);
    LeadsMore(s, 1 + a, s2);
    n, t, up := 2 + a, s2.(pc := Enq(0)), AllUp(lists, 1, LEVELS, due);
  }

  /** The loop that queues the RUNNABLE processes; `a` is what was known before the aging. */
  lemma {:induction false} Queueing(s: Sys, up: Queues, a: Procs)
    returns (n: nat, t: Sys, queues: Queues, news: Queues)
    requires WellShaped(s) && s.pc == Enq(0) && QueuesOk(s.rings, up, s.currq, s.qued)
    requires a.state == s.state && a.qued == s.qued && a.enter == s.enter
    ensures Leads(s, n, t) && WellShaped(t) && t.pc == PkTest(0) && QueuesOk(t.rings, queues, t.currq, t.qued)
    ensures t.state == s.state && t.currq == s.currq && t.ticks == s.ticks
    ensures |up| == |news| == |queues| == LEVELS
    ensures forall p :: 0 <= p < NPROC && t.state[p] == Runnable ==> t.qued[p]
    ensures Joins(a, s.ticks, up, s.rticks, news, queues, t.currq, t.enter, t.rticks)
  {
    hide Leads, Threads, RingsAre, Placed, Newly;
    QueueSizes(s.rings, up, s.currq, s.qued);
    var none := seq(LEVELS, _ => []);
    forall x | 0 <= x < LEVELS ensures up[x] == up[x] + none[x] && Newly(none[x], x, s.state, s.qued, s.currq, 0) {
      NewlyNone(x, s.state, s.qued, s.currq);
    }
    n, t, queues, news := EnqDone(s, 0, up, up, s.qued, none);
    QueueSizes(t.rings, queues, t.currq, t.qued);
  }

  /** The search for a process to run. */
  lemma {:induction false} Picking(s: Sys, queues: Queues) returns (n: nat, t: Sys, lists: Queues, lv: nat)
    requires WellShaped(s) && s.pc == PkTest(0) && QueuesOk(s.rings, queues, s.currq, s.qued)
    requires |queues| == LEVELS && forall p :: 0 <= p < NPROC && s.state[p] == Runnable ==> s.qued[p]
    ensures Leads(s, n, t) && Found(s, t, lists, queues, lv)
    ensures lv == LEVELS ==> forall p :: 0 <= p < NPROC ==> s.state[p] != Runnable
  {
    hide Leads, Threads, RingsAre, Placed, FirstRunnable;
    RunnableQueued(s.rings, queues, s.currq, s.qued, s.state);
    assert queues[0][0..] == queues[0];
    n, t, lists, lv := PickDone(s, queues, queues, 0, 0);
  }

  /** From consistent queues and without interrupts, the steps of mlfq_scheduler come to an end,
      and together do what Mlfq.Scheduler.Dispatch does; the queues are consistent again. */
  lemma {:induction false} Undisturbed(s: Sys, lists: Queues)
    returns (n: nat, t: Sys, lists': Queues, up: Queues, slices: seq<nat>, news: Queues, queues: Queues, lv: nat)
    requires WellShaped(s) && s.pc == Start && QueuesOk(s.rings, lists, s.currq, s.qued)
    ensures Leads(s, n, t) && QueuesOk(t.rings, lists', t.currq, t.qued) && t.ticks == s.ticks
    ensures t.pc == Start || t.pc.OnCpu?
    ensures Dispatches(Know(s, lists), s.ticks, up, slices, news, queues, lv, Know(t, lists'),
                       if t.pc.OnCpu? then t.pc.p else -1)
  {
    hide Leads, Threads, QueuesOk, Passed, Joins, FirstRunnable, NoRunnable;
    var a, s1;
    a, s1, up := Aging(s, lists);
    slices := s1.rticks;
    var b, s2;
    b, s2, queues, news := Queueing(s1, up, Know(s, lists));
    LeadsOn(s, a, s1, b, s2);
    var c;
    c, t, lists', lv := Picking(s2, queues);
    LeadsOn(s, a + b, s2, c, t);
    n := a + b + c;
  }
}
