/** The multi-level feedback queue scheduler, uninterrupted: aging, demotion and dispatch. */
module Mlfq {
  import opened MlfqQueues

  // ---- Dispatch ----

  /** The first position from `j` on whose process is RUNNABLE. */
  ghost function FirstRunnable(q: seq<nat>, j: nat, state: seq<State>): (k: nat)
    requires j <= |q|
    ensures j <= k <= |q|
    decreases |q| - j
  {
    if j < |q| && !(q[j] < |state| && state[q[j]] == Runnable) then FirstRunnable(q, j + 1, state) else j
  }

  ghost predicate NoRunnable(q: seq<nat>, state: seq<State>) {
    forall j :: 0 <= j < |q| && q[j] < |state| ==> state[q[j]] != Runnable
  }

  lemma {:induction false} FirstNext(q: seq<nat>, k: nat, state: seq<State>)
    requires k < |q|
    ensures FirstRunnable(q, k, state) == if q[k] < |state| && state[q[k]] == Runnable then k
            else FirstRunnable(q, k + 1, state)
  {
  }

  lemma {:induction false} FirstEnd(q: seq<nat>, k: nat, state: seq<State>)
    requires k == |q|
    ensures FirstRunnable(q, k, state) == k
  {
  }

  lemma {:induction false} FirstIs(q: seq<nat>, j: nat, state: seq<State>)
    requires j <= |q|
    ensures var k := FirstRunnable(q, j, state);
            && (k < |q| ==> q[k] < |state| && state[q[k]] == Runnable)
            && forall i :: j <= i < k && q[i] < |state| ==> state[q[i]] != Runnable
    decreases |q| - j
  {
    if j < |q| { FirstIs(q, j + 1, state); }
  }

  lemma {:induction false} NoneFirst(q: seq<nat>, state: seq<State>)
    ensures FirstRunnable(q, 0, state) == |q| ==> NoRunnable(q, state)
  {
    FirstIs(q, 0, state);
  }

  /** When all RUNNABLE processes are queued, empty-handed queues mean there is none. */
  lemma {:induction false} RunnableQueued(rings: seq<Ring>, lists: Queues, currq: seq<int>, qued: seq<bool>,
                                          state: seq<State>)
    requires QueuesOk(rings, lists, currq, qued) && |state| == NPROC
    requires forall p :: 0 <= p < NPROC && state[p] == Runnable ==> qued[p]
    ensures (forall x :: 0 <= x < LEVELS ==> NoRunnable(lists[x], state)) ==>
              forall p :: 0 <= p < NPROC ==> state[p] != Runnable
  {
    forall p | 0 <= p < NPROC && state[p] == Runnable
      ensures exists x :: 0 <= x < LEVELS && !NoRunnable(lists[x], state)
    {
      var j :| 0 <= j < |lists[currq[p]]| && lists[currq[p]][j] == p;
      assert !NoRunnable(lists[currq[p]], state);
    }
  }

  /** `q` are the processes below `p` that are RUNNABLE, not queued and of level `lv`, in increasing
      order. */
  ghost predicate Newly(q: seq<nat>, lv: int, state: seq<State>, qued: seq<bool>, currq: seq<int>, p: nat)
    requires p <= |state| == |qued| == |currq|
  {
    && (forall i, j :: 0 <= i < j < |q| ==> q[i] < q[j])
    && forall x: nat :: x in q <==> x < p && state[x] == Runnable && !qued[x] && currq[x] == lv
  }

  /** There is one such sequence. */
  lemma {:induction false} NewlyUnique(q: seq<nat>, q': seq<nat>, lv: int, state: seq<State>, qued: seq<bool>,
                                       currq: seq<int>, p: nat)
    requires p <= |state| == |qued| == |currq| && Newly(q, lv, state, qued, currq, p)
             && Newly(q', lv, state, qued, currq, p)
    ensures q == q'
  {
    SameSorted(q, q');
  }

  lemma {:induction false} SameSorted(q: seq<nat>, q': seq<nat>)
    requires (forall i, j :: 0 <= i < j < |q| ==> q[i] < q[j]) && (forall i, j :: 0 <= i < j < |q'| ==> q'[i] < q'[j])
    requires forall x :: x in q <==> x in q'
    ensures q == q'
  {
    assert |q| > 0 ==> q[0] in q';
    assert |q'| > 0 ==> q'[0] in q;
    if |q| > 0 {
      var a, b := q[|q| - 1], q'[|q'| - 1];
      assert a in q' && b in q;
      assert a == b;
      var t, t' := q[..|q| - 1], q'[..|q'| - 1];
      forall x ensures x in t <==> x in t' {
        assert x in q <==> x in t || x == a;
        assert x in q' <==> x in t' || x == a;
        assert a !in t && a !in t';
      }
      SameSorted(t, t');
      assert q == t + [a] && q' == t' + [a];
    }
  }

  lemma {:induction false} NewlyNone(lv: int, state: seq<State>, qued: seq<bool>, currq: seq<int>)
    requires |state| == |qued| == |currq|
    ensures Newly([], lv, state, qued, currq, 0)
  {
  }

  lemma {:induction false} NewlyNext(q: seq<nat>, lv: int, state: seq<State>, qued: seq<bool>, currq: seq<int>, p: nat)
    requires p < |state| == |qued| == |currq| && Newly(q, lv, state, qued, currq, p)
    ensures Newly(if state[p] == Runnable && !qued[p] && currq[p] == lv then q + [p] else q, lv, state, qued, currq,
                  p + 1)
  {
    forall i | 0 <= i < |q| ensures q[i] < p { assert q[i] in q; }
  }

  /** What a pass makes of the queues, of curr_q and of cq_rticks. */
  ghost predicate Passed(lists: Queues, currq: seq<int>, rticks: seq<nat>, lists': Queues, currq': seq<int>,
                         rticks': seq<nat>, due: seq<bool>)
  {
    && |lists| == LEVELS && lists' == AllUp(lists, 1, LEVELS, due)
    && var moved := Movers(lists, 1, LEVELS, due);
       && (forall j :: 0 <= j < |moved| ==> moved[j] < |currq| && moved[j] < |rticks|)
       && currq' == Lower(currq, moved) && rticks' == Restart(rticks, moved)
  }

  /** What the scheduler knows of the processes. */
  datatype Procs = Procs(lists: Queues, state: seq<State>, currq: seq<int>, qued: seq<bool>, enter: seq<nat>,
                         rticks: seq<nat>)

  /** What mlfq_scheduler does up to the switch to process `cpu`: `up` and `slices` are the queues
      and cq_rticks after aging, `news` the processes that then join the queues, `queues` what the
      process is chosen from, and `lv` its level.  If no process is chosen then none is RUNNABLE. */
  ghost predicate Dispatches(a: Procs, ticks: nat, up: Queues, slices: seq<nat>, news: Queues, queues: Queues, lv: nat,
                             b: Procs, cpu: int)
  {
    && |a.state| == |a.qued| == |a.enter| == |b.currq| == |b.enter| == |b.rticks| == |slices| == NPROC
    && |up| == |news| == |queues| == |b.lists| == LEVELS && lv <= LEVELS
    && Passed(a.lists, a.currq, a.rticks, up, b.currq, slices, Due(a.state, a.enter, ticks))
    && Joins(a, ticks, up, slices, news, queues, b.currq, b.enter, b.rticks)
    && (forall x :: 0 <= x < lv ==> NoRunnable(queues[x], a.state) && b.lists[x] == [])
    && (forall x :: lv < x < LEVELS ==> b.lists[x] == queues[x])
    && (cpu == -1 <==> lv == LEVELS)
    && (cpu == -1 ==> b.state == a.state && forall p :: 0 <= p < NPROC ==> a.state[p] != Runnable)
    && (cpu != -1 ==>
          var k := FirstRunnable(queues[lv], 0, a.state);
          && k < |queues[lv]| && 0 <= cpu < NPROC && cpu == queues[lv][k] && a.state[cpu] == Runnable
          && b.state == a.state[cpu := Running] && b.lists[lv] == queues[lv][k + 1..])
  }

  /** The RUNNABLE processes that are not queued go to the ends of their levels, in the order of
      the process table. */
  ghost predicate Joins(a: Procs, ticks: nat, up: Queues, slices: seq<nat>, news: Queues, queues: Queues,
                        currq: seq<int>, enter: seq<nat>, rticks: seq<nat>)
    requires |a.state| == |a.qued| == |a.enter| == |currq| == |enter| == |rticks| == |slices| == NPROC
    requires |up| == |news| == |queues| == LEVELS
  {
    && (forall x :: 0 <= x < LEVELS ==>
          queues[x] == up[x] + news[x] && Newly(news[x], x, a.state, a.qued, currq, NPROC))
    && forall p :: 0 <= p < NPROC ==>
         var comes := !a.qued[p] && a.state[p] == Runnable;
         && enter[p] == (if comes then ticks else a.enter[p])
         && rticks[p] == (if comes then 0 else slices[p])
  }

  class Scheduler {
    var rings: seq<Ring>
    var state: seq<State>
    var currq: seq<int>
    var qued: seq<bool>
    var enter: seq<nat>       // q_enter_time
    var rticks: seq<nat>      // cq_rticks
    var cpu: int              // c->proc, -1 for none
    ghost var lists: Queues

    ghost predicate Valid()
      reads this
    {
      && QueuesOk(rings, lists, currq, qued)
      && |state| == |enter| == |rticks| == NPROC
      && -1 <= cpu < NPROC && (cpu != -1 ==> !qued[cpu] && state[cpu] != Unused)
      && forall p :: 0 <= p < NPROC && state[p] == Unused ==> !qued[p]
    }

    ghost function Now(): Procs
      reads this
    {
      Procs(lists, state, currq, qued, enter, rticks)
    }

    /** mlfq_init. */
    constructor ()
      ensures Valid() && cpu == -1 && forall p :: 0 <= p < NPROC ==> state[p] == Unused && !qued[p]
    {
      rings := seq(LEVELS, _ => Ring(seq(NPROC, _ => -1), 0, 0, 0));
      state := seq(NPROC, _ => Unused);
      currq := seq(NPROC, _ => 0);
      qued := seq(NPROC, _ => false);
      enter := seq(NPROC, _ => 0);
      rticks := seq(NPROC, _ => 0);
      cpu := -1;
      lists := seq(LEVELS, _ => []);
    }

    /** The queue fields of allocproc. */
    method AllocProc(p: nat, ticks: nat)
      requires Valid() && p < NPROC && state[p] == Unused
      modifies this
      ensures Valid() && qued == old(qued)[p := true] && currq == old(currq)[p := 0]
      ensures lists == old(lists)[0 := old(lists)[0] + [p]] && cpu == old(cpu)
      ensures state == old(state)[p := Used] && enter == old(enter)[p := ticks] && rticks == old(rticks)[p := 0]
    {
      hide RingsAre, Placed;
      QueueSizes(rings, lists, currq, qued);
      PlacedRelevel(lists, currq, qued, p, 0);
      currq := currq[p := 0];
      EnqueueOk(rings, lists, currq, qued, p);
      state := state[p := Used];
      enter := enter[p := ticks];
      rings := rings[0 := Push(rings[0], p)];
      qued := qued[p := true];
      rticks := rticks[p := 0];
      lists := lists[0 := lists[0] + [p]];
    }

    /** The queue fields of freeproc.  The queues stay as they are, which is sound exactly for
        a process that is in none. */
    method FreeProc(p: nat)
      requires Valid() && p < NPROC && cpu != p
      modifies this`state, this`currq, this`qued, this`enter, this`rticks
      ensures state == old(state)[p := Unused] && qued == old(qued)[p := false]
      ensures currq == old(currq)[p := 0] && enter == old(enter)[p := 0] && rticks == old(rticks)[p := 0]
      ensures Valid() <==> !old(qued)[p]
      ensures Consistent(rings, currq, qued) <==> !old(qued)[p]
    {
      hide RingsAre, Placed;
      QueueSizes(rings, lists, currq, qued);
      ReapIff(rings, lists, currq, qued, p);
      if !qued[p] {
        PlacedRelevel(lists, currq, qued, p, 0);
        assert qued[p := false] == qued;
      }
      state := state[p := Unused];
      currq := currq[p := 0];
      qued := qued[p := false];
      enter := enter[p := 0];
      rticks := rticks[p := 0];
    }

    /** sleep, wakeup, exit and kill change the state of a process and nothing here. */
    method SetState(p: nat, s: State)
      requires Valid() && p < NPROC && state[p] != Unused && s != Unused
      modifies this`state
      ensures Valid() && state == old(state)[p := s]
    {
      state := state[p := s];
    }

    /** A timer interrupt in usertrap or, with `kernel`, in kerneltrap: the running process is
        moved down when its slice is used up; it yields then, or when a level above its own
        has a process. */
    method Tick(kernel: bool) returns (preempt: bool)
      requires Valid() && cpu != -1
      modifies this`currq, this`rticks
      ensures Valid()
      ensures var p, lv, full := cpu, old(currq)[cpu], old(rticks)[cpu] >= Slice(old(currq)[cpu]);
              && currq == old(currq)[p := if full && lv < 4 then lv + 1 else lv]
              && rticks == old(rticks)[p := if full && (lv < 4 || kernel) then 0 else old(rticks)[p]]
              && (preempt <==> full || exists x :: 0 <= x < currq[p] && lists[x] != [])
    {
      hide RingsAre, Placed;
      QueueSizes(rings, lists, currq, qued);
      var p := cpu;
      preempt := false;
      if rticks[p] >= Slice(currq[p]) {
        PlacedRelevel(lists, currq, qued, p, if currq[p] < 4 then currq[p] + 1 else currq[p]);
        if currq[p] < 4 {
          currq := currq[p := currq[p] + 1];
          rticks := rticks[p := 0];
        } else {
          assert currq[p := currq[p]] == currq;
        }
        if kernel {
          rticks := rticks[p := 0];
        }
        preempt := true;
      }
      QueueSizes(rings, lists, currq, qued);
      var x := 0;
      while x < currq[p]
        invariant 0 <= x <= currq[p] < LEVELS && Valid()
        invariant preempt <==> old(rticks)[p] >= Slice(old(currq)[p]) || exists y :: 0 <= y < x && lists[y] != []
      {
        if rings[x].size > 0 {
          preempt := true;
        }
        x := x + 1;
      }
    }

    /** The inner loop of queue_switch: what it stores, whatever the rings hold. */
    method ClimbLevel(lv: nat, ticks: nat)
      requires Shape(rings) && |state| == |currq| == |enter| == |rticks| == NPROC && 0 < lv < LEVELS
      requires Climb(rings, lv, Due(state, enter, ticks)).ok
      modifies this`rings, this`currq, this`rticks
      ensures var o := Climb(old(rings), lv, Due(state, enter, ticks));
              && rings == o.rings && currq == Lower(old(currq), o.moved) && rticks == Restart(old(rticks), o.moved)
    {
      hide Climb, Lower, Restart, Push, Pop;
      ghost var due := Due(state, enter, ticks);
      ghost var o := Climb(rings, lv, due);
      while rings[lv].size != 0
        invariant Shape(rings) && |currq| == |rticks| == NPROC && Climb(rings, lv, due).ok
        invariant var o' := Climb(rings, lv, due);
                  && o'.rings == o.rings && Lower(currq, o'.moved) == Lower(old(currq), o.moved)
                  && Restart(rticks, o'.moved) == Restart(old(rticks), o.moved)
        decreases if rings[lv].size < 0 then 0 else rings[lv].size
      {
        ClimbRound(rings, lv, due, currq, rticks);
        var p := Front(rings[lv]);
        if state[p] == Runnable && Aged(ticks, enter[p]) {
          rings := rings[lv := Pop(rings[lv])];
          currq := currq[p := currq[p] - 1];
          rticks := rticks[p := 0];
          rings := rings[lv - 1 := Push(rings[lv - 1], p)];
        } else {
          return;
        }
      }
      ClimbRound(rings, lv, due, currq, rticks);
    }

    /** queue_switch: the due front of every level goes to the end of the level above, starts a
        new slice there, and the queues stay consistent. */
    method QueueSwitch(ticks: nat)
      requires Valid()
      modifies this`rings, this`currq, this`rticks, this`lists
      ensures Valid() && Shape(old(rings))
      ensures Pass(old(rings), 1, Due(state, enter, ticks)).rings == rings
      ensures Passed(old(lists), old(currq), old(rticks), lists, currq, rticks, Due(state, enter, ticks))
    {
      hide RingsAre, Placed, Climb, Lower, Restart, AllUp, Movers;
      QueueSizes(rings, lists, currq, qued);
      ghost var due := Due(state, enter, ticks);
      PassKeeps(rings, lists, currq, qued, due);
      ghost var moved := Movers(lists, 1, LEVELS, due);
      for lv := 1 to LEVELS
        invariant Shape(rings) && |currq| == |rticks| == NPROC && Pass(rings, lv, due).ok && lists == old(lists)
        invariant var o := Pass(rings, lv, due);
                  && o.rings == Pass(old(rings), 1, due).rings && Lower(currq, o.moved) == Lower(old(currq), moved)
                  && Restart(rticks, o.moved) == Restart(old(rticks), moved)
      {
        ghost var a := Climb(rings, lv, due);
        LowerBoth(currq, a.moved, Pass(a.rings, lv + 1, due).moved);
        RestartBoth(rticks, a.moved, Pass(a.rings, lv + 1, due).moved);
        ClimbLevel(lv, ticks);
      }
      LowerNone(currq, rticks);
      lists := AllUp(lists, 1, LEVELS, due);
    }

    /** update_ticks as the timer interrupt calls it: every process that runs is charged a
        tick, and the aged processes go up. */
    method UpdateTicks(ticks: nat)
      requires Valid()
      modifies this`rings, this`currq, this`rticks, this`lists
      ensures Valid() && |old(rticks)| == NPROC
      ensures Passed(old(lists), old(currq), Charged(old(rticks), state), lists, currq, rticks,
                     Due(state, enter, ticks))
    {
      hide RingsAre, Placed, Passed, Pass;
      for p := 0 to NPROC
        invariant |rticks| == NPROC
        invariant forall x :: 0 <= x < NPROC ==>
                    rticks[x] == old(rticks)[x] + if x < p && state[x] == Running then 1 else 0
        modifies this`rticks
      {
        if state[p] == Running {
          rticks := rticks[p := rticks[p] + 1];
        }
      }
      assert rticks == Charged(old(rticks), state);
      QueueSwitch(ticks);
    }

    /** The loop of mlfq_scheduler that queues every process that is RUNNABLE and not queued: in
        the order of the process table, at the end of its level. */
    method EnqueueAll(ticks: nat) returns (ghost news: Queues)
      requires Valid() && cpu == -1
      modifies this`rings, this`qued, this`enter, this`rticks, this`lists
      ensures Valid() && |lists| == |old(lists)| == |news| == LEVELS
      ensures |state| == |old(qued)| == |currq| == NPROC
      ensures forall lv :: 0 <= lv < LEVELS ==>
                lists[lv] == old(lists)[lv] + news[lv] && Newly(news[lv], lv, state, old(qued), currq, NPROC)
      ensures forall p :: 0 <= p < NPROC ==> qued[p] == (old(qued)[p] || state[p] == Runnable)
      ensures forall p :: 0 <= p < NPROC ==>
                var comes := !old(qued)[p] && state[p] == Runnable;
                && enter[p] == (if comes then ticks else old(enter)[p])
                && rticks[p] == (if comes then 0 else old(rticks)[p])
    {
      hide RingsAre, Placed, Newly;
      QueueSizes(rings, lists, currq, qued);
      news := seq(LEVELS, _ => []);
      forall lv | 0 <= lv < LEVELS ensures Newly(news[lv], lv, state, qued, currq, 0) {
        NewlyNone(lv, state, qued, currq);
      }
      for p := 0 to NPROC
        invariant Valid() && |lists| == |news| == LEVELS && |qued| == |state| == NPROC
        invariant forall lv :: 0 <= lv < LEVELS ==>
                    lists[lv] == old(lists)[lv] + news[lv] && Newly(news[lv], lv, state, old(qued), currq, p)
        invariant forall x :: 0 <= x < NPROC ==> qued[x] == (old(qued)[x] || (x < p && state[x] == Runnable))
        invariant forall x :: 0 <= x < NPROC ==>
                    && enter[x] == (if x < p && !old(qued)[x] && state[x] == Runnable then ticks else old(enter)[x])
                    && rticks[x] == (if x < p && !old(qued)[x] && state[x] == Runnable then 0 else old(rticks)[x])
      {
        QueueSizes(rings, lists, currq, qued);
        forall lv | 0 <= lv < LEVELS
          ensures Newly(if state[p] == Runnable && !old(qued)[p] && currq[p] == lv then news[lv] + [p]
                        else news[lv], lv,
                        state, old(qued), currq, p + 1)
        {
          NewlyNext(news[lv], lv, state, old(qued), currq, p);
        }
        if state[p] == Runnable && !qued[p] {
          EnqueueOk(rings, lists, currq, qued, p);
          enter := enter[p := ticks];
          rticks := rticks[p := 0];
          rings := rings[currq[p] := Push(rings[currq[p]], p)];
          qued := qued[p := true];
          lists := lists[currq[p] := lists[currq[p]] + [p]];
          news := news[currq[p] := news[currq[p]] + [p]];
          QueueSizes(rings, lists, currq, qued);
        }
      }
    }

    /** Processes are taken off level `lv` up to the first that is RUNNABLE; -1 for none. */
    method PopLevel(lv: nat) returns (p: int)
      requires Valid() && cpu == -1 && lv < LEVELS == |lists|
      modifies this`rings, this`qued, this`lists
      ensures Valid() && |lists| == LEVELS
      ensures var q := old(lists)[lv];
              var k := FirstRunnable(q, 0, state);
              && lists == old(lists)[lv := if k < |q| then q[k + 1..] else []]
              && p == (if k < |q| then q[k] else -1) && p < NPROC && (p != -1 ==> !qued[p])
    {
      hide RingsAre, Placed, FirstRunnable;
      QueueSizes(rings, lists, currq, qued);
      ghost var q, k := lists[lv], 0;
      assert lists == lists[lv := q[0..]] by { assert q[0..] == q; }
      while rings[lv].size != 0
        invariant Valid() && |rings| == |lists| == LEVELS && k <= |q| && cpu == -1
        invariant lists == old(lists)[lv := q[k..]] && rings[lv].size == |q| - k
        invariant FirstRunnable(q, k, state) == FirstRunnable(q, 0, state)
        decreases |q| - k
      {
        QueueSizes(rings, lists, currq, qued);
        DequeueOk(rings, lists, currq, qued, lv);
        FirstNext(q, k, state);
        p := Front(rings[lv]);
        rings := rings[lv := Pop(rings[lv])];
        qued := qued[p := false];
        lists := lists[lv := lists[lv][1..]];
        assert q[k..][1..] == q[k + 1..];
        if state[p] == Runnable { return; }
        k := k + 1;
        QueueSizes(rings, lists, currq, qued);
      }
      FirstEnd(q, k, state);
      p := -1;
    }

    /** The dispatch loop of mlfq_scheduler: the first RUNNABLE process of the lowest level
        that has one. */
    method Pick() returns (p: int, lv: nat)
      requires Valid() && cpu == -1
      modifies this`rings, this`qued, this`lists
      ensures Valid() && |lists| == |old(lists)| == LEVELS && lv <= LEVELS && p < NPROC
      ensures forall x :: 0 <= x < lv ==> lists[x] == [] && NoRunnable(old(lists)[x], state)
      ensures p == -1 <==> lv == LEVELS
      ensures p != -1 ==>
        && (var k := FirstRunnable(old(lists)[lv], 0, state);
            k < |old(lists)[lv]| && p == old(lists)[lv][k] && lists[lv] == old(lists)[lv][k + 1..])
        && !qued[p] && forall x :: lv < x < LEVELS ==> lists[x] == old(lists)[x]
    {
      hide RingsAre, Placed, FirstRunnable, NoRunnable;
      QueueSizes(rings, lists, currq, qued);
      p, lv := -1, 0;
      while lv < LEVELS
        invariant Valid() && |lists| == |old(lists)| == LEVELS && lv <= LEVELS && p == -1 && cpu == -1
        invariant forall x :: 0 <= x < lv ==> lists[x] == [] && NoRunnable(old(lists)[x], state)
        invariant forall x :: lv <= x < LEVELS ==> lists[x] == old(lists)[x]
      {
        NoneFirst(lists[lv], state);
        p := PopLevel(lv);
        if p != -1 { return; }
        lv := lv + 1;
      }
    }

    /** mlfq_scheduler up to the switch to the chosen process. */
    method Dispatch(ticks: nat)
      returns (ghost up: Queues, ghost slices: seq<nat>, ghost news: Queues, ghost queues: Queues, ghost lv: nat)
      requires Valid() && cpu == -1
      modifies this
      ensures Valid() && Dispatches(old(Now()), ticks, up, slices, news, queues, lv, Now(), cpu)
    {
      hide RingsAre, Placed, FirstRunnable, NoRunnable, Passed, Pass, Newly;
      QueueSwitch(ticks);
      up, slices := lists, rticks;
      QueueSizes(rings, lists, currq, qued);
      news := EnqueueAll(ticks);
      queues := lists;
      QueueSizes(rings, lists, currq, qued);
      assert Joins(old(Now()), ticks, up, slices, news, queues, currq, enter, rticks);
      hide Joins;
      RunnableQueued(rings, lists, currq, qued, state);
      var p, level := Pick();
      lv := level;
      if p != -1 {
        FirstIs(queues[lv], 0, state);
        state := state[p := Running];
        cpu := p;
      }
    }

    /** mlfq_scheduler after the switch back: the process is queued again, at its level. */
    method PutBack(ticks: nat)
      requires Valid() && cpu != -1
      modifies this
      ensures Valid() && cpu == -1 && |old(lists)| == LEVELS && old(currq)[old(cpu)] < LEVELS && state == old(state)
              && currq == old(currq)
      ensures var lv := old(currq)[old(cpu)]; lists == old(lists)[lv := old(lists)[lv] + [old(cpu)]]
      ensures enter == old(enter)[old(cpu) := ticks] && rticks == old(rticks)[old(cpu) := 0]
              && qued == old(qued)[old(cpu) := true]
    {
      hide RingsAre, Placed;
      QueueSizes(rings, lists, currq, qued);
      var p := cpu;
      EnqueueOk(rings, lists, currq, qued, p);
      enter := enter[p := ticks];
      rticks := rticks[p := 0];
      qued := qued[p := true];
      rings := rings[currq[p] := Push(rings[currq[p]], p)];
      lists := lists[currq[p] := lists[currq[p]] + [p]];
      cpu := -1;
    }
  }

  /** A process that exits is queued once more by the scheduler, and freeproc then takes its
      flag but leaves it in the queue. */
  method ReapQueued() returns (s: Scheduler)
    ensures s.cpu == -1 && |s.state| == NPROC && s.state[0] == Unused && !Consistent(s.rings, s.currq, s.qued)
  {
    hide RingsAre, Placed, Passed, Newly, FirstRunnable, NoRunnable;
    s := new Scheduler();
    s.AllocProc(0, 0);
    s.SetState(0, Runnable);
    ghost var was := s.state;
    var up, slices, news, queues, lv := s.Dispatch(0);
    assert was[0] == Runnable && forall p :: 1 <= p < NPROC ==> was[p] == Unused;
    assert s.cpu == 0;
    s.SetState(0, Zombie);
    QueueSizes(s.rings, s.lists, s.currq, s.qued);
    s.PutBack(1);
    s.FreeProc(0);
  }
}
