/** The queues of the multi-level feedback queue scheduler: five rings of processes, what they
    hold, and what a pass of aging does to them. */
module MlfqQueues {
  import opened Counting

  const NPROC: nat := 64
  const LEVELS: nat := 5
  const AGE: nat := 30

  datatype State = Unused | Used | Sleeping | Runnable | Running | Zombie

  // ---- Rings ----

  /** `struct que`; a process is its number and -1 is the null pointer. */
  datatype Ring = Ring(procs: seq<int>, head: nat, tail: nat, size: int)

  predicate Shaped(r: Ring) {
    && |r.procs| == NPROC && r.head < NPROC && r.tail < NPROC
    && forall j :: 0 <= j < NPROC ==> -1 <= r.procs[j] < NPROC
  }

  /** que_push. */
  function Push(r: Ring, p: nat): (r': Ring)
    requires Shaped(r) && p < NPROC
    ensures Shaped(r')
  {
    var head, tail := if r.size == 0 then 0 else r.head, if r.size == 0 then 0 else r.tail;
    Ring(r.procs[tail := p], head, (tail + 1) % 64, r.size + 1)
  }

  /** What que_pop does to the ring. */
  function Pop(r: Ring): (r': Ring)
    requires Shaped(r)
    ensures Shaped(r')
  {
    if r.size == 0 then r else Ring(r.procs, (r.head + 1) % 64, r.tail, r.size - 1)
  }

  /** que_front, and the result of que_pop. */
  function Front(r: Ring): (p: int)
    requires Shaped(r)
    ensures -1 <= p < NPROC
  {
    if r.size == 0 then -1 else r.procs[r.head]
  }

  /** The place `j` after `h` in a ring. */
  function Place(h: nat, j: nat): (r: nat)
    requires h < NPROC && j <= NPROC
    ensures r < NPROC
  {
    if h + j < NPROC then h + j else h + j - NPROC
  }

  /** The ring holds the queue `q`, and its size is `more` too large. */
  ghost predicate RingIs(r: Ring, q: seq<nat>, more: nat) {
    && Shaped(r) && r.size == |q| + more <= NPROC
    && (q != [] ==> r.tail == Place(r.head, |q|))
    && forall j :: 0 <= j < |q| ==> r.procs[Place(r.head, j)] == q[j]
  }

  /** The place of the last process that the size counts. */
  function Last(r: Ring): (j: nat)
    requires Shaped(r)
    ensures j < NPROC
  {
    if 1 <= r.size <= NPROC then Place(r.head, r.size - 1) else 0
  }

  /** The size is one too large, and the next process pushed would come right behind the queue. */
  predicate Snug(r: Ring)
    requires Shaped(r)
  {
    r.tail == Last(r)
  }

  lemma {:induction false} PushOk(r: Ring, q: seq<nat>, more: nat, p: nat)
    requires RingIs(r, q, more) && |q| + more < NPROC && p < NPROC && more <= 1 && (more == 1 ==> Snug(r))
    ensures RingIs(Push(r, p), q + [p], more)
  {
    var r', q' := Push(r, p), q + [p];
    if r.size == 0 {
      assert q' == [p];
    } else {
      assert r.tail == Place(r.head, |q|);
      assert forall j :: 0 <= j < |q| ==> Place(r.head, j) != r.tail;
    }
  }

  lemma {:induction false} PopOk(r: Ring, q: seq<nat>, more: nat)
    requires RingIs(r, q, more) && q != []
    ensures Front(r) == q[0] && RingIs(Pop(r), q[1..], more)
    ensures more == 1 ==> Last(Pop(r)) == Last(r) && Pop(r).procs == r.procs && Pop(r).tail == r.tail
  {
    assert r.procs[Place(r.head, 0)] == q[0];
    var r', q' := Pop(r), q[1..];
    forall j | 0 <= j < |q'| ensures r'.procs[Place(r'.head, j)] == q'[j] {
      assert r.procs[Place(r.head, j + 1)] == q[j + 1];
    }
  }

  /** A ring holds one queue only. */
  lemma {:induction false} RingUnique(r: Ring, q: seq<nat>, q': seq<nat>, more: nat)
    requires RingIs(r, q, more) && RingIs(r, q', more)
    ensures q == q'
  {
    forall j | 0 <= j < |q| ensures q[j] == q'[j] {
      assert r.procs[Place(r.head, j)] == q[j] && r.procs[Place(r.head, j)] == q'[j];
    }
  }

  // ---- All queues ----

  type Queues = seq<seq<nat>>

  /** The rings hold the queues; the size of the ring of level `over`, if any, is one too large. */
  ghost predicate RingsAre(rings: seq<Ring>, lists: Queues, over: int) {
    && |rings| == |lists| == LEVELS
    && forall lv :: 0 <= lv < LEVELS ==> RingIs(rings[lv], lists[lv], if lv == over then 1 else 0)
  }

  /** The processes queued at level `lv` are different, and their curr_q is `lv`. */
  ghost predicate LevelOk(q: seq<nat>, lv: nat, currq: seq<int>, qued: seq<bool>)
    requires |currq| == |qued| == NPROC
  {
    Distinct(q) && forall j :: 0 <= j < |q| ==> q[j] < NPROC && currq[q[j]] == lv && qued[q[j]]
  }

  /** Each process is queued at most once and at its own level, and qued_fl says whether; but
      process `out`, if any, is flagged and in no queue. */
  ghost predicate Placed(lists: Queues, currq: seq<int>, qued: seq<bool>, out: int) {
    && |lists| == LEVELS && |currq| == |qued| == NPROC
    && (forall lv :: 0 <= lv < LEVELS ==> LevelOk(lists[lv], lv, currq, qued))
    && (forall p :: 0 <= p < NPROC ==> 0 <= currq[p] < LEVELS && (qued[p] && p != out ==> p in lists[currq[p]]))
    && (0 <= out ==> out < NPROC && qued[out] && forall lv :: 0 <= lv < LEVELS ==> out !in lists[lv])
  }

  /** Each process is queued at most once and at its own level, and qued_fl says whether. */
  ghost predicate QueuesOk(rings: seq<Ring>, lists: Queues, currq: seq<int>, qued: seq<bool>) {
    RingsAre(rings, lists, -1) && Placed(lists, currq, qued, -1)
  }

  /** The rings hold some such queues. */
  ghost predicate Consistent(rings: seq<Ring>, currq: seq<int>, qued: seq<bool>) {
    exists lists :: QueuesOk(rings, lists, currq, qued)
  }

  /** A process is in the queue of its level only. */
  lemma {:induction false} OneQueue(lists: Queues, currq: seq<int>, qued: seq<bool>, out: int, lv: nat, p: nat)
    requires Placed(lists, currq, qued, out) && lv < LEVELS && p in lists[lv]
    ensures p < NPROC && currq[p] == lv && qued[p] && p != out
    ensures forall x :: 0 <= x < LEVELS && x != lv ==> p !in lists[x]
  {
    assert LevelOk(lists[lv], lv, currq, qued);
    forall x | 0 <= x < LEVELS && x != lv ensures p !in lists[x] {
      assert LevelOk(lists[x], x, currq, qued);
    }
  }

  /** Two queues together, and with them a process in no queue, are at most NPROC. */
  lemma {:induction false} Room(lists: Queues, currq: seq<int>, qued: seq<bool>, out: int, a: nat, b: nat)
    requires Placed(lists, currq, qued, out) && a < LEVELS && b < LEVELS && a != b
    ensures |lists[a]| + |lists[b]| + (if out >= 0 then 1 else 0) <= NPROC
  {
    var qa, qb := lists[a], lists[b];
    assert LevelOk(qa, a, currq, qued) && LevelOk(qb, b, currq, qued);
    var both := qa + qb;
    assert forall k :: 0 <= k < |both| ==> both[k] == if k < |qa| then qa[k] else qb[k - |qa|];
    assert Distinct(both) && forall k :: 0 <= k < |both| ==> both[k] < NPROC;
    if out >= 0 {
      Pigeonhole(both, NPROC, out);
    } else {
      CardMono(Elements(both), UpTo(NPROC));
    }
  }

  /** One queue leaves room for a process that is in none. */
  lemma {:induction false} RoomFor(lists: Queues, currq: seq<int>, qued: seq<bool>, out: int, lv: nat, p: nat)
    requires Placed(lists, currq, qued, out) && lv < LEVELS && p < NPROC && p !in lists[lv]
    ensures |lists[lv]| < NPROC
  {
    assert LevelOk(lists[lv], lv, currq, qued);
    Pigeonhole(lists[lv], NPROC, p);
  }

  lemma {:induction false} PlacedPush(lists: Queues, currq: seq<int>, qued: seq<bool>, p: nat)
    requires Placed(lists, currq, qued, -1) && p < NPROC && !qued[p]
    ensures 0 <= currq[p] < LEVELS
    ensures var lv := currq[p]; Placed(lists[lv := lists[lv] + [p]], currq, qued[p := true], -1)
  {
    var lv := currq[p];
    var lists', qued' := lists[lv := lists[lv] + [p]], qued[p := true];
    forall x | 0 <= x < LEVELS ensures LevelOk(lists'[x], x, currq, qued') {
      assert LevelOk(lists[x], x, currq, qued);
    }
    forall x | 0 <= x < NPROC && qued'[x] ensures x in lists'[currq[x]] {
      assert lists'[lv][|lists[lv]|] == p;
    }
  }

  /** Taking the first process of a queue leaves it flagged and in no queue. */
  lemma {:induction false} PlacedPop(lists: Queues, currq: seq<int>, qued: seq<bool>, lv: nat)
    requires Placed(lists, currq, qued, -1) && lv < LEVELS && lists[lv] != []
    ensures Placed(lists[lv := lists[lv][1..]], currq, qued, lists[lv][0])
  {
    var p := lists[lv][0];
    var lists' := lists[lv := lists[lv][1..]];
    OneQueue(lists, currq, qued, -1, lv, p);
    forall x | 0 <= x < LEVELS ensures LevelOk(lists'[x], x, currq, qued) && p !in lists'[x] {
      assert LevelOk(lists[x], x, currq, qued);
    }
    forall x | 0 <= x < NPROC && qued[x] && x != p ensures x in lists'[currq[x]] {
      if currq[x] == lv {
        var j :| 0 <= j < |lists[lv]| && lists[lv][j] == x;
        assert lists'[lv][j - 1] == x;
      }
    }
  }

  /** Clearing the flag of a process that is in no queue. */
  lemma {:induction false} PlacedClear(lists: Queues, currq: seq<int>, qued: seq<bool>, p: nat)
    requires Placed(lists, currq, qued, p)
    ensures Placed(lists, currq, qued[p := false], -1)
  {
    forall x | 0 <= x < LEVELS ensures LevelOk(lists[x], x, currq, qued[p := false]) {
      assert LevelOk(lists[x], x, currq, qued);
    }
  }

  /** A process that is not queued may change its level. */
  lemma {:induction false} PlacedRelevel(lists: Queues, currq: seq<int>, qued: seq<bool>, p: nat, lv: nat)
    requires Placed(lists, currq, qued, -1) && p < NPROC && !qued[p] && lv < LEVELS
    ensures Placed(lists, currq[p := lv], qued, -1)
  {
    forall x | 0 <= x < LEVELS ensures LevelOk(lists[x], x, currq[p := lv], qued) {
      assert LevelOk(lists[x], x, currq, qued);
    }
  }

  /** The first process of one level goes to the end of another. */
  lemma {:induction false} PlacedMove(lists: Queues, currq: seq<int>, qued: seq<bool>, out: int, from: nat, to: nat)
    requires Placed(lists, currq, qued, out) && from < LEVELS && to < LEVELS && from != to && lists[from] != []
    ensures var p := lists[from][0];
            && p < NPROC && currq[p] == from
            && Placed(lists[from := lists[from][1..]][to := lists[to] + [p]], currq[p := to], qued, out)
  {
    var p := lists[from][0];
    OneQueue(lists, currq, qued, out, from, p);
    var lists', currq' := lists[from := lists[from][1..]][to := lists[to] + [p]], currq[p := to];
    forall x | 0 <= x < LEVELS ensures LevelOk(lists'[x], x, currq', qued) && (out >= 0 ==> out !in lists'[x]) {
      assert LevelOk(lists[x], x, currq, qued);
    }
    hide LevelOk;
    forall x | 0 <= x < NPROC && qued[x] && x != out ensures x in lists'[currq'[x]] {
      assert lists'[to][|lists[to]|] == p;
      if x != p { StillIn(lists, from, to, currq[x], x); }
    }
  }

  lemma {:induction false} StillIn(lists: Queues, from: nat, to: nat, lv: nat, x: nat)
    requires from < |lists| && to < |lists| && from != to && lists[from] != [] && x != lists[from][0] && lv < |lists|
             && x in lists[lv]
    ensures x in lists[from := lists[from][1..]][to := lists[to] + [lists[from][0]]][lv]
  {
    var lists' := lists[from := lists[from][1..]][to := lists[to] + [lists[from][0]]];
    var j :| 0 <= j < |lists[lv]| && lists[lv][j] == x;
    assert lists'[lv][if lv == from then j - 1 else j] == x;
  }

  /** Queueing a process that is not queued: its ring has room. */
  lemma {:induction false} EnqueueOk(rings: seq<Ring>, lists: Queues, currq: seq<int>, qued: seq<bool>, p: nat)
    requires QueuesOk(rings, lists, currq, qued) && p < NPROC && !qued[p]
    ensures var lv := currq[p];
            && 0 <= lv < LEVELS && Shaped(rings[lv])
            && QueuesOk(rings[lv := Push(rings[lv], p)], lists[lv := lists[lv] + [p]], currq, qued[p := true])
  {
    hide RingIs;
    var lv := currq[p];
    assert LevelOk(lists[lv], lv, currq, qued);
    RoomFor(lists, currq, qued, -1, lv, p);
    RingSize(rings[lv], lists[lv], 0);
    PushOk(rings[lv], lists[lv], 0, p);
    PlacedPush(lists, currq, qued, p);
  }

  lemma {:induction false} RingSize(r: Ring, q: seq<nat>, more: nat)
    requires RingIs(r, q, more)
    ensures Shaped(r) && r.size == |q| + more <= NPROC
  {
  }

  /** Taking the first process of a queue. */
  lemma {:induction false} DequeueOk(rings: seq<Ring>, lists: Queues, currq: seq<int>, qued: seq<bool>, lv: nat)
    requires QueuesOk(rings, lists, currq, qued) && lv < LEVELS && lists[lv] != []
    ensures var p := lists[lv][0];
            && p < NPROC && currq[p] == lv && qued[p] && Shaped(rings[lv]) && Front(rings[lv]) == p
            && QueuesOk(rings[lv := Pop(rings[lv])], lists[lv := lists[lv][1..]], currq, qued[p := false])
  {
    hide RingIs;
    var p := lists[lv][0];
    OneQueue(lists, currq, qued, -1, lv, p);
    RingSize(rings[lv], lists[lv], 0);
    PopOk(rings[lv], lists[lv], 0);
    PlacedPop(lists, currq, qued, lv);
    PlacedClear(lists[lv := lists[lv][1..]], currq, qued, p);
  }

  /** freeproc clears qued_fl and curr_q but leaves the queues alone: that is sound exactly
      for a process that is in no queue. */
  lemma {:induction false} ReapIff(rings: seq<Ring>, lists: Queues, currq: seq<int>, qued: seq<bool>, p: nat)
    requires QueuesOk(rings, lists, currq, qued) && p < NPROC
    ensures Consistent(rings, currq[p := 0], qued[p := false]) <==> !qued[p]
  {
    var currq', qued' := currq[p := 0], qued[p := false];
    if qued[p] {
      forall l ensures !QueuesOk(rings, l, currq', qued') {
        if QueuesOk(rings, l, currq', qued') { InRing(rings, lists, l, currq', qued', currq[p], p); }
      }
    } else {
      PlacedRelevel(lists, currq, qued, p, 0);
      assert qued' == qued;
      assert QueuesOk(rings, lists, currq', qued');
    }
  }

  /** What consistent queues say about a process that a ring holds. */
  lemma {:induction false} InRing(rings: seq<Ring>, lists: Queues, l: Queues, currq: seq<int>, qued: seq<bool>,
                                  lv: nat, p: nat)
    requires lv < LEVELS && |rings| == |lists| == LEVELS && RingIs(rings[lv], lists[lv], 0) && p in lists[lv]
    requires QueuesOk(rings, l, currq, qued)
    ensures p < NPROC && qued[p] && currq[p] == lv && Distinct(lists[lv])
    ensures forall x :: 0 <= x < LEVELS && x != lv ==> p !in l[x]
  {
    RingUnique(rings[lv], lists[lv], l[lv], 0);
    OneQueue(l, currq, qued, -1, lv, p);
    assert LevelOk(l[lv], lv, currq, qued);
  }

  // ---- Aging ----

  /** The process has waited for more than 30 ticks; the difference is unsigned. */
  predicate Aged(ticks: nat, enter: nat) {
    enter > ticks || ticks - enter > AGE
  }

  /** As the code computes it: both are 32-bit ticks, and the difference is taken in 64 bits. */
  lemma {:induction false} AgedIs(ticks: nat, enter: nat)
    requires ticks < 0x1_0000_0000 && enter < 0x1_0000_0000
    ensures Aged(ticks, enter) <==> (ticks - enter) % 0x1_0000_0000_0000_0000 > 30
  {
    if enter > ticks {
      var d := ticks - enter + 0x1_0000_0000_0000_0000;
      assert (ticks - enter) % 0x1_0000_0000_0000_0000 == d % 0x1_0000_0000_0000_0000 == d;
    }
  }

  /** The processes that queue_switch takes one level up when it gets to them. */
  function Due(state: seq<State>, enter: seq<nat>, ticks: nat): (due: seq<bool>)
    requires |state| == |enter| == NPROC
    ensures |due| == NPROC && forall p :: 0 <= p < NPROC ==> due[p] == (state[p] == Runnable && Aged(ticks, enter[p]))
  {
    seq(NPROC, p requires 0 <= p < NPROC => state[p] == Runnable && Aged(ticks, enter[p]))
  }

  predicate Shape(rings: seq<Ring>) {
    |rings| == LEVELS && forall lv :: 0 <= lv < LEVELS ==> Shaped(rings[lv])
  }

  /** What a pass does: the rings, the processes moved up, in order, and whether it met neither
      a null pointer nor a negative size. */
  datatype Moves = Moves(rings: seq<Ring>, moved: seq<nat>, ok: bool)

  /** The inner loop of queue_switch, for one level. */
  function Climb(rings: seq<Ring>, lv: nat, due: seq<bool>): (o: Moves)
    requires Shape(rings) && 0 < lv < LEVELS && |due| == NPROC
    ensures Shape(o.rings) && forall j :: 0 <= j < |o.moved| ==> o.moved[j] < NPROC
    ensures forall x :: 0 <= x < LEVELS && x != lv && x + 1 != lv ==> o.rings[x] == rings[x]
    decreases if rings[lv].size < 0 then 0 else rings[lv].size
  {
    if rings[lv].size == 0 then Moves(rings, [], true)
    else
      var p := Front(rings[lv]);
      if rings[lv].size < 0 || p == -1 then Moves(rings, [], false)
      else if !due[p] then Moves(rings, [], true)
      else
        var o := Climb(rings[lv := Pop(rings[lv])][lv - 1 := Push(rings[lv - 1], p)], lv, due);
        Moves(o.rings, [p] + o.moved, o.ok)
  }

  /** queue_switch from level `lv` on. */
  function Pass(rings: seq<Ring>, lv: nat, due: seq<bool>): (o: Moves)
    requires Shape(rings) && 0 < lv <= LEVELS && |due| == NPROC
    ensures Shape(o.rings) && forall j :: 0 <= j < |o.moved| ==> o.moved[j] < NPROC
    ensures forall x :: 0 <= x < LEVELS && x + 1 < lv ==> o.rings[x] == rings[x]
    decreases LEVELS - lv
  {
    if lv == LEVELS then Moves(rings, [], true)
    else
      var a := Climb(rings, lv, due);
      if !a.ok then a
      else
        var b := Pass(a.rings, lv + 1, due);
        Moves(b.rings, a.moved + b.moved, b.ok)
  }

  /** curr_q after the moves. */
  function Lower(currq: seq<int>, moved: seq<nat>): (r: seq<int>)
    requires forall j :: 0 <= j < |moved| ==> moved[j] < |currq|
    ensures |r| == |currq|
    decreases |moved|
  {
    if moved == [] then currq else Lower(currq[moved[0] := currq[moved[0]] - 1], moved[1..])
  }

  /** cq_rticks after the moves. */
  function Restart(rticks: seq<nat>, moved: seq<nat>): (r: seq<nat>)
    requires forall j :: 0 <= j < |moved| ==> moved[j] < |rticks|
    ensures |r| == |rticks|
    ensures forall p :: 0 <= p < |rticks| ==> r[p] == if p in moved then 0 else rticks[p]
    decreases |moved|
  {
    if moved == [] then rticks else Restart(rticks[moved[0] := 0], moved[1..])
  }

  /** Each move takes a process one level up. */
  lemma {:induction false} LowerAt(currq: seq<int>, moved: seq<nat>, p: nat)
    requires (forall j :: 0 <= j < |moved| ==> moved[j] < |currq|) && p < |currq|
    ensures Lower(currq, moved)[p] == currq[p] - multiset(moved)[p]
    decreases |moved|
  {
    if moved != [] {
      LowerAt(currq[moved[0] := currq[moved[0]] - 1], moved[1..], p);
      assert moved == [moved[0]] + moved[1..];
    }
  }

  lemma {:induction false} LowerBoth(currq: seq<int>, a: seq<nat>, b: seq<nat>)
    requires forall j :: 0 <= j < |a| ==> a[j] < |currq|
    requires forall j :: 0 <= j < |b| ==> b[j] < |currq|
    ensures forall j :: 0 <= j < |a + b| ==> (a + b)[j] < |currq|
    ensures Lower(currq, a + b) == Lower(Lower(currq, a), b)
    decreases |a|
  {
    if a == [] {
      assert a + b == b;
    } else {
      assert (a + b)[1..] == a[1..] + b;
      LowerBoth(currq[a[0] := currq[a[0]] - 1], a[1..], b);
    }
  }

  /** How many processes at the front of a queue go up. */
  ghost function Lead(q: seq<nat>, due: seq<bool>): (k: nat)
    ensures k <= |q| && (k < |q| ==> !(q[k] < |due| && due[q[k]]))
    ensures forall i :: 0 <= i < k ==> q[i] < |due| && due[q[i]]
  {
    if q != [] && q[0] < |due| && due[q[0]] then 1 + Lead(q[1..], due) else 0
  }

  /** The first `k` processes of level `lv`, moved to the end of the level above. */
  ghost function Up(lists: Queues, lv: nat, k: nat): (r: Queues)
    requires 0 < lv < |lists| && k <= |lists[lv]|
    ensures |r| == |lists|
  {
    lists[lv := lists[lv][k..]][lv - 1 := lists[lv - 1] + lists[lv][..k]]
  }

  /** Levels `lv` up to `hi` in turn. */
  ghost function AllUp(lists: Queues, lv: nat, hi: nat, due: seq<bool>): (r: Queues)
    requires |lists| == LEVELS && 0 < lv <= hi <= LEVELS
    ensures |r| == LEVELS
    decreases hi - lv
  {
    if lv == hi then lists else AllUp(Up(lists, lv, Lead(lists[lv], due)), lv + 1, hi, due)
  }

  /** The processes that move, level by level. */
  ghost function Movers(lists: Queues, lv: nat, hi: nat, due: seq<bool>): (r: seq<nat>)
    requires |lists| == LEVELS && 0 < lv <= hi <= LEVELS
    decreases hi - lv
  {
    if lv == hi then []
    else
      var k := Lead(lists[lv], due);
      lists[lv][..k] + Movers(Up(lists, lv, k), lv + 1, hi, due)
  }

  /** How many processes of level `lv` go up. */
  ghost function Count(lists: Queues, lv: nat, due: seq<bool>): (k: nat)
    requires lv < |lists|
    ensures k <= |lists[lv]|
  {
    if lv == 0 then 0 else Lead(lists[lv], due)
  }

  /** A pass moves the aged front of each level to the end of the level above, and nothing
      moves twice. */
  lemma {:induction false} AllUpAt(lists: Queues, lv: nat, hi: nat, due: seq<bool>, x: nat)
    requires |lists| == LEVELS && 0 < lv <= hi <= LEVELS && x < LEVELS
    ensures AllUp(lists, lv, hi, due)[x] ==
              lists[x][if lv <= x < hi then Count(lists, x, due) else 0..] +
              (if lv <= x + 1 < hi then lists[x + 1][..Count(lists, x + 1, due)] else [])
    decreases hi - lv
  {
    if lv < hi {
      AllUpAt(Up(lists, lv, Lead(lists[lv], due)), lv + 1, hi, due, x);
    } else {
      assert lists[x][0..] + [] == lists[x];
    }
  }

  /** One step of a climb on the queues. */
  lemma {:induction false} UpFirst(lists: Queues, lv: nat, k: nat)
    requires 0 < lv < |lists| && 1 <= k <= |lists[lv]|
    ensures var l1 := lists[lv := lists[lv][1..]][lv - 1 := lists[lv - 1] + [lists[lv][0]]];
            Up(lists, lv, k) == Up(l1, lv, k - 1) && l1 == Up(lists, lv, 1)
  {
    var q := lists[lv];
    assert q[1..][k - 1..] == q[k..];
    assert lists[lv - 1] + [q[0]] + q[1..][..k - 1] == lists[lv - 1] + q[..k];
    assert q[..1] == [q[0]];
  }

  lemma {:induction false} UpNone(lists: Queues, lv: nat)
    requires 0 < lv < |lists|
    ensures Up(lists, lv, 0) == lists
  {
    assert lists[lv][0..] == lists[lv] && lists[lv - 1] + lists[lv][..0] == lists[lv - 1];
  }

  lemma {:induction false} PlacedSizes(lists: Queues, currq: seq<int>, qued: seq<bool>, out: int)
    requires Placed(lists, currq, qued, out)
    ensures |lists| == LEVELS && |currq| == |qued| == NPROC && forall p :: 0 <= p < NPROC ==> 0 <= currq[p] < LEVELS
  {
  }

  lemma {:induction false} PlacedUp(lists: Queues, currq: seq<int>, qued: seq<bool>, out: int, lv: nat, k: nat)
    requires Placed(lists, currq, qued, out) && 0 < lv < LEVELS && k <= |lists[lv]|
    ensures forall j :: 0 <= j < k ==> lists[lv][j] < NPROC
    ensures Placed(Up(lists, lv, k), Lower(currq, lists[lv][..k]), qued, out)
    decreases k
  {
    hide Placed, Up;
    PlacedSizes(lists, currq, qued, out);
    UpNone(lists, lv);
    if k > 0 {
      var q := lists[lv];
      UpFirst(lists, lv, k);
      PlacedMove(lists, currq, qued, out, lv, lv - 1);
      PlacedUp(Up(lists, lv, 1), currq[q[0] := lv - 1], qued, out, lv, k - 1);
      assert q[..k][1..] == q[1..][..k - 1];
      assert forall j :: 1 <= j < k ==> q[j] == q[1..][j - 1];
    }
  }

  lemma {:induction false} PlacedAllUp(lists: Queues, currq: seq<int>, qued: seq<bool>, out: int, lv: nat, hi: nat,
                                       due: seq<bool>)
    requires Placed(lists, currq, qued, out) && 0 < lv <= hi <= LEVELS
    ensures forall j :: 0 <= j < |Movers(lists, lv, hi, due)| ==> Movers(lists, lv, hi, due)[j] < NPROC
    ensures Placed(AllUp(lists, lv, hi, due), Lower(currq, Movers(lists, lv, hi, due)), qued, out)
    decreases hi - lv
  {
    hide Placed;
    PlacedSizes(lists, currq, qued, out);
    if lv < hi {
      var k := Lead(lists[lv], due);
      PlacedUp(lists, currq, qued, out, lv, k);
      PlacedAllUp(Up(lists, lv, k), Lower(currq, lists[lv][..k]), qued, out, lv + 1, hi, due);
      LowerBoth(currq, lists[lv][..k], Movers(Up(lists, lv, k), lv + 1, hi, due));
    }
  }

  /** No two neighbouring queues from level `lv` on fill a ring. */
  ghost predicate Roomy(lists: Queues, lv: nat, over: int) {
    && |lists| == LEVELS
    && forall x, y :: 0 <= x && lv <= y < LEVELS && y == x + 1 ==>
         |lists[x]| + |lists[y]| + (if over >= 0 then 1 else 0) <= NPROC
  }

  /** The last process that the size counts is null or would go up. */
  predicate Stray(r: Ring, due: seq<bool>)
    requires Shaped(r) && |due| == NPROC
  {
    var p := r.procs[Last(r)];
    p == -1 || due[p]
  }

  /** The pass goes past the end of the queue of level `over`. */
  ghost predicate Overruns(rings: seq<Ring>, lists: Queues, over: int, due: seq<bool>)
    requires Shape(rings) && |lists| == LEVELS && |due| == NPROC
  {
    0 < over < LEVELS && Lead(lists[over], due) == |lists[over]| && Stray(rings[over], due)
  }

  lemma {:induction false} RingsShape(rings: seq<Ring>, lists: Queues, over: int)
    requires RingsAre(rings, lists, over)
    ensures Shape(rings) && |lists| == LEVELS
    ensures forall lv :: 0 <= lv < LEVELS ==> rings[lv].size == |lists[lv]| + if lv == over then 1 else 0
  {
  }

  /** Moving the front process of a ring to the ring above. */
  lemma {:induction false} RingsMove(rings: seq<Ring>, lists: Queues, over: int, lv: nat)
    requires RingsAre(rings, lists, over) && 0 < lv < LEVELS && Roomy(lists, lv, over) && lists[lv] != []
             && lists[lv][0] < NPROC
    requires Shape(rings) && (lv - 1 == over ==> Snug(rings[over]))
    ensures Shape(rings) && rings[lv].size > 0 && Front(rings[lv]) == lists[lv][0]
    ensures RingsAre(rings[lv := Pop(rings[lv])][lv - 1 := Push(rings[lv - 1], lists[lv][0])], Up(lists, lv, 1), over)
    ensures Roomy(Up(lists, lv, 1), lv, over)
  {
    hide RingIs;
    RingsShape(rings, lists, over);
    UpFirst(lists, lv, 1);
    PopOk(rings[lv], lists[lv], if lv == over then 1 else 0);
    assert |lists[lv - 1]| + |lists[lv]| + (if over >= 0 then 1 else 0) <= NPROC;
    PushOk(rings[lv - 1], lists[lv - 1], if lv - 1 == over then 1 else 0, lists[lv][0]);
  }

  lemma {:induction false} LeadNext(q: seq<nat>, due: seq<bool>)
    ensures Lead(q, due) == if q != [] && q[0] < |due| && due[q[0]] then 1 + Lead(q[1..], due) else 0
  {
  }

  predicate SameEnd(r: Ring, r': Ring)
    requires Shaped(r) && Shaped(r')
  {
    r.procs == r'.procs && r.tail == r'.tail && Last(r) == Last(r')
  }

  lemma {:induction false} PushSnug(r: Ring, q: seq<nat>, p: nat)
    requires RingIs(r, q, 1) && Snug(r) && |q| + 1 < NPROC && p < NPROC
    ensures Snug(Push(r, p))
  {
  }

  /** One round of a climb at a queue whose front process is due. */
  lemma {:induction false} ClimbMove(rings: seq<Ring>, lists: Queues, over: int, lv: nat, due: seq<bool>)
    returns (rings': seq<Ring>)
    requires RingsAre(rings, lists, over) && 0 < lv < LEVELS && Roomy(lists, lv, over) && |due| == NPROC && Shape(rings)
    requires lists[lv] != [] && lists[lv][0] < NPROC && due[lists[lv][0]] && (lv - 1 == over ==> Snug(rings[over]))
    ensures Shape(rings') && RingsAre(rings', Up(lists, lv, 1), over) && Roomy(Up(lists, lv, 1), lv, over)
    ensures var o, o' := Climb(rings, lv, due), Climb(rings', lv, due);
            o == Moves(o'.rings, [lists[lv][0]] + o'.moved, o'.ok)
    ensures Up(lists, lv, 1)[lv] == lists[lv][1..] && Up(lists, lv, 1)[lv - 1] == lists[lv - 1] + [lists[lv][0]]
    ensures lv == over ==> SameEnd(rings'[lv], rings[lv])
    ensures lv - 1 == over ==> Snug(rings'[over])
    ensures Lead(lists[lv], due) == 1 + Lead(lists[lv][1..], due)
  {
    hide RingIs, RingsAre, Roomy, Push, Pop, Last, Lead, Climb, Snug, SameEnd;
    RingsShape(rings, lists, over);
    RingsMove(rings, lists, over, lv);
    ClimbFirst(rings, lv, due);
    UpFirst(lists, lv, 1);
    LeadNext(lists[lv], due);
    rings' := rings[lv := Pop(rings[lv])][lv - 1 := Push(rings[lv - 1], lists[lv][0])];
    if lv == over || lv - 1 == over { ClimbEnds(rings, lists, over, lv); }
  }

  lemma {:induction false} ClimbFirst(rings: seq<Ring>, lv: nat, due: seq<bool>)
    requires Shape(rings) && 0 < lv < LEVELS && |due| == NPROC && rings[lv].size > 0
    requires Front(rings[lv]) >= 0 && due[Front(rings[lv])]
    ensures var o, p := Climb(rings, lv, due), Front(rings[lv]);
            var o' := Climb(rings[lv := Pop(rings[lv])][lv - 1 := Push(rings[lv - 1], p)], lv, due);
            o == Moves(o'.rings, [p] + o'.moved, o'.ok)
  {
    hide Push, Pop;
  }

  /** The end of the queue whose size is too large. */
  lemma {:induction false} ClimbEnds(rings: seq<Ring>, lists: Queues, over: nat, lv: nat)
    requires RingsAre(rings, lists, over) && 0 < lv < LEVELS && Roomy(lists, lv, over) && Shape(rings)
    requires lists[lv] != [] && lists[lv][0] < NPROC && (lv - 1 == over ==> Snug(rings[over]))
    ensures lv == over ==> SameEnd(Pop(rings[lv]), rings[lv])
    ensures lv - 1 == over ==> Snug(Push(rings[over], lists[lv][0]))
  {
    hide RingIs, Push, Pop, Last;
    PopOk(rings[lv], lists[lv], if lv == over then 1 else 0);
    assert |lists[lv - 1]| + |lists[lv]| + 1 <= NPROC;
    if lv - 1 == over { PushSnug(rings[over], lists[over], lists[lv][0]); }
  }

  /** A climb at a queue that is empty or whose front process is not due. */
  lemma {:induction false} ClimbStop(rings: seq<Ring>, lists: Queues, over: int, lv: nat, due: seq<bool>)
    requires RingsAre(rings, lists, over) && 0 < lv < LEVELS && |due| == NPROC && Shape(rings)
    requires if lists[lv] == [] then lv == over ==> !Stray(rings[lv], due)
             else !(lists[lv][0] < NPROC && due[lists[lv][0]])
    ensures Climb(rings, lv, due) == Moves(rings, [], true) && Lead(lists[lv], due) == 0 && Up(lists, lv, 0) == lists
  {
    var q, r := lists[lv], rings[lv];
    UpNone(lists, lv);
    assert RingIs(r, q, if lv == over then 1 else 0);
    assert Place(r.head, 0) == r.head;
    if q != [] { assert r.procs[Place(r.head, 0)] == q[0]; }
  }

  lemma {:induction false} Fronts(rings: seq<Ring>, lists: Queues, over: int, lv: nat)
    requires RingsAre(rings, lists, over) && lv < LEVELS
    ensures lists[lv] != [] ==> lists[lv][0] < NPROC
  {
    if lists[lv] != [] { PopOk(rings[lv], lists[lv], if lv == over then 1 else 0); }
  }

  /** A climb moves the due front of the queue, unless it goes past the end of the queue. */
  lemma {:induction false} ClimbOk(rings: seq<Ring>, lists: Queues, over: int, lv: nat, due: seq<bool>)
    requires RingsAre(rings, lists, over) && 0 < lv < LEVELS && Roomy(lists, lv, over) && |due| == NPROC && Shape(rings)
    requires lv == over ==> !Overruns(rings, lists, over, due)
    requires lv - 1 == over && Lead(lists[lv], due) > 0 ==> Snug(rings[over])
    ensures var o, k := Climb(rings, lv, due), Lead(lists[lv], due);
            && o.ok && o.moved == lists[lv][..k] && RingsAre(o.rings, Up(lists, lv, k), over)
            && (lv == over ==> SameEnd(o.rings[lv], rings[lv]))
    decreases |lists[lv]|
  {
    hide RingIs, Lead, Climb, Up, RingsAre, Roomy;
    RingsShape(rings, lists, over);
    Fronts(rings, lists, over, lv);
    var q, k := lists[lv], Lead(lists[lv], due);
    if q != [] && due[q[0]] {
      var rings' := ClimbMove(rings, lists, over, lv, due);
      ClimbOk(rings', Up(lists, lv, 1), over, lv, due);
      UpFirst(lists, lv, k);
      assert [q[0]] + q[1..][..k - 1] == q[..k];
    } else {
      LeadNext(q, due);
      ClimbStop(rings, lists, over, lv, due);
    }
  }

  /** A climb that goes past the end of its queue moves the process behind it as well, or
      meets a null pointer there. */
  lemma {:induction false} ClimbOver(rings: seq<Ring>, lists: Queues, lv: nat, due: seq<bool>)
    requires RingsAre(rings, lists, lv) && 0 < lv < LEVELS && Roomy(lists, lv, lv) && |due| == NPROC && Shape(rings)
    requires Overruns(rings, lists, lv, due)
    ensures var o, x := Climb(rings, lv, due), rings[lv].procs[Last(rings[lv])];
            if x == -1 then !o.ok
            else o.ok && o.moved == lists[lv] + [x] && RingsAre(o.rings, Past(lists, lv, x), -1)
    decreases |lists[lv]|
  {
    hide RingIs, Lead, Climb, Up, RingsAre, Roomy, Past;
    RingsShape(rings, lists, lv);
    Fronts(rings, lists, lv, lv);
    LeadNext(lists[lv], due);
    if lists[lv] != [] {
      var rings' := ClimbMove(rings, lists, lv, lv, due);
      ClimbOver(rings', Up(lists, lv, 1), lv, due);
      var x := rings[lv].procs[Last(rings[lv])];
      if x != -1 { PastFirst(lists, lv, x); }
      assert [lists[lv][0]] + (lists[lv][1..] + [x]) == lists[lv] + [x];
    } else {
      ClimbEnd(rings, lists, lv, due);
    }
  }

  /** All processes of level `lv`, and then `x`, moved to the end of the level above. */
  ghost function Past(lists: Queues, lv: nat, x: nat): (r: Queues)
    requires 0 < lv < |lists|
    ensures |r| == |lists|
  {
    lists[lv := []][lv - 1 := lists[lv - 1] + lists[lv] + [x]]
  }

  lemma {:induction false} PastFirst(lists: Queues, lv: nat, x: nat)
    requires 0 < lv < |lists| && lists[lv] != []
    ensures Past(Up(lists, lv, 1), lv, x) == Past(lists, lv, x)
  {
    UpFirst(lists, lv, 1);
    assert lists[lv - 1] + [lists[lv][0]] + lists[lv][1..] == lists[lv - 1] + lists[lv];
  }

  lemma {:induction false} ClimbEnd(rings: seq<Ring>, lists: Queues, lv: nat, due: seq<bool>)
    requires RingsAre(rings, lists, lv) && 0 < lv < LEVELS && Roomy(lists, lv, lv) && |due| == NPROC && Shape(rings)
    requires lists[lv] == [] && Stray(rings[lv], due)
    ensures var o, x := Climb(rings, lv, due), rings[lv].procs[Last(rings[lv])];
            if x == -1 then !o.ok
            else o.ok && o.moved == [x] && RingsAre(o.rings, Past(lists, lv, x), -1)
  {
    var r, x := rings[lv], rings[lv].procs[Last(rings[lv])];
    assert RingIs(r, [], 1) && Front(r) == x;
    if x != -1 {
      hide RingIs;
      assert |lists[lv - 1]| + |lists[lv]| + 1 <= NPROC;
      RingsShape(rings, lists, lv);
      PushOk(rings[lv - 1], lists[lv - 1], 0, x);
      var rings' := rings[lv := Pop(r)][lv - 1 := Push(rings[lv - 1], x)];
      NowEmpty(r);
      assert Climb(rings', lv, due) == Moves(rings', [], true);
      assert lists[lv - 1] + lists[lv] + [x] == lists[lv - 1] + [x];
      assert RingsAre(rings', Past(lists, lv, x), -1);
    }
  }

  lemma {:induction false} NowEmpty(r: Ring)
    requires RingIs(r, [], 1)
    ensures RingIs(Pop(r), [], 0) && Pop(r).size == 0
  {
  }

  /** A pass over consistent rings moves the due front of every level, unless it goes past the
      end of a queue whose size is too large. */
  lemma {:induction false} PassOk(rings: seq<Ring>, lists: Queues, over: int, lv: nat, due: seq<bool>)
    requires RingsAre(rings, lists, over) && 0 < lv <= LEVELS && Roomy(lists, lv, over) && |due| == NPROC
             && Shape(rings)
    requires lv <= over ==> !Overruns(rings, lists, over, due)
    requires 0 <= over && lv <= over + 1 < LEVELS && Lead(lists[over + 1], due) > 0 ==> Snug(rings[over])
    ensures var o := Pass(rings, lv, due);
            && o.ok && o.moved == Movers(lists, lv, LEVELS, due)
            && RingsAre(o.rings, AllUp(lists, lv, LEVELS, due), over)
    decreases LEVELS - lv
  {
    hide RingIs, RingsAre, Climb, Lead;
    if lv < LEVELS {
      ClimbOk(rings, lists, over, lv, due);
      PassOk(Climb(rings, lv, due).rings, Up(lists, lv, Lead(lists[lv], due)), over, lv + 1, due);
    }
  }

  /** A pass that goes past the end of the queue of level `over` comes to level `over + 1` with
      these rings. */
  lemma {:induction false} PassOver(rings: seq<Ring>, lists: Queues, over: nat, lv: nat, due: seq<bool>)
    returns (rings': seq<Ring>)
    requires RingsAre(rings, lists, over) && 0 < lv <= over && Roomy(lists, lv, over) && |due| == NPROC && Shape(rings)
    requires Overruns(rings, lists, over, due)
    ensures Shape(rings')
    ensures var o, x := Pass(rings, lv, due), rings[over].procs[Last(rings[over])];
            var o' := Pass(rings', over + 1, due);
            if x == -1 then !o.ok
            else
              && RingsAre(rings', Past(AllUp(lists, lv, over, due), over, x), -1)
              && o.ok == o'.ok && o.rings == o'.rings
              && o.moved == Movers(lists, lv, over, due) + lists[over] + [x] + o'.moved
    decreases over - lv
  {
    hide RingIs, RingsAre, Climb, Lead, Past;
    var a := Climb(rings, lv, due);
    if lv == over {
      ClimbOver(rings, lists, lv, due);
      rings' := a.rings;
    } else {
      ClimbOk(rings, lists, over, lv, due);
      rings' := PassOver(a.rings, Up(lists, lv, Lead(lists[lv], due)), over, lv + 1, due);
    }
  }

  /** 1 << curr_q. */
  function Slice(lv: int): (r: nat)
    ensures r >= 1 && (0 <= lv < LEVELS ==> r == [1, 2, 4, 8, 16][lv])
  {
    if lv <= 0 then 1 else 2 * Slice(lv - 1)
  }

  /** cq_rticks after a tick: one more for every process that runs. */
  function Charged(rticks: seq<nat>, state: seq<State>): (r: seq<nat>)
    requires |rticks| == |state|
    ensures |r| == |rticks| && forall p :: 0 <= p < |r| ==> r[p] == rticks[p] + if state[p] == Running then 1 else 0
  {
    seq(|rticks|, p requires 0 <= p < |rticks| => rticks[p] + if state[p] == Running then 1 else 0)
  }

  /** One round of the inner loop of queue_switch. */
  lemma {:induction false} ClimbRound(rings: seq<Ring>, lv: nat, due: seq<bool>, currq: seq<int>, rticks: seq<nat>)
    requires Shape(rings) && 0 < lv < LEVELS && |due| == |currq| == |rticks| == NPROC && Climb(rings, lv, due).ok
    ensures rings[lv].size != 0 ==> Front(rings[lv]) >= 0 && rings[lv].size > 0
    ensures var o, p := Climb(rings, lv, due), Front(rings[lv]);
            if rings[lv].size != 0 && due[p] then
              var o' := Climb(rings[lv := Pop(rings[lv])][lv - 1 := Push(rings[lv - 1], p)], lv, due);
              && o'.ok && o'.rings == o.rings && Lower(currq[p := currq[p] - 1], o'.moved) == Lower(currq, o.moved)
              && Restart(rticks[p := 0], o'.moved) == Restart(rticks, o.moved)
            else
              o.rings == rings && Lower(currq, o.moved) == currq && Restart(rticks, o.moved) == rticks
    ensures rings[lv].size != 0 ==> Pop(rings[lv]).size == rings[lv].size - 1
  {
    var o, p := Climb(rings, lv, due), Front(rings[lv]);
    if rings[lv].size != 0 && due[p] {
      var o' := Climb(rings[lv := Pop(rings[lv])][lv - 1 := Push(rings[lv - 1], p)], lv, due);
      assert o.moved == [p] + o'.moved && o.moved[1..] == o'.moved;
    }
  }

  lemma {:induction false} RestartBoth(rticks: seq<nat>, a: seq<nat>, b: seq<nat>)
    requires forall j :: 0 <= j < |a| ==> a[j] < |rticks|
    requires forall j :: 0 <= j < |b| ==> b[j] < |rticks|
    ensures Restart(rticks, a + b) == Restart(Restart(rticks, a), b)
  {
  }

  lemma {:induction false} LowerNone(currq: seq<int>, rticks: seq<nat>)
    ensures Lower(currq, []) == currq && Restart(rticks, []) == rticks
  {
  }

  lemma {:induction false} RoomyAll(lists: Queues, currq: seq<int>, qued: seq<bool>, out: int, over: int)
    requires Placed(lists, currq, qued, out) && (over >= 0 ==> out >= 0)
    ensures Roomy(lists, 1, over)
  {
    forall x, y | 0 <= x && 1 <= y < LEVELS && y == x + 1
      ensures |lists[x]| + |lists[y]| + (if over >= 0 then 1 else 0) <= NPROC
    {
      Room(lists, currq, qued, out, x, y);
    }
  }

  /** A whole pass over consistent queues. */
  lemma {:induction false} PassKeeps(rings: seq<Ring>, lists: Queues, currq: seq<int>, qued: seq<bool>, due: seq<bool>)
    requires QueuesOk(rings, lists, currq, qued) && |due| == NPROC
    ensures Shape(rings)
    ensures var o := Pass(rings, 1, due);
            && o.ok && o.moved == Movers(lists, 1, LEVELS, due)
            && QueuesOk(o.rings, AllUp(lists, 1, LEVELS, due), Lower(currq, o.moved), qued)
  {
    hide RingsAre, Placed, Pass, Lower;
    RingsShape(rings, lists, -1);
    PlacedSizes(lists, currq, qued, -1);
    RoomyAll(lists, currq, qued, -1, -1);
    PassOk(rings, lists, -1, 1, due);
    PlacedAllUp(lists, currq, qued, -1, 1, LEVELS, due);
  }

  lemma {:induction false} QueueSizes(rings: seq<Ring>, lists: Queues, currq: seq<int>, qued: seq<bool>)
    requires QueuesOk(rings, lists, currq, qued)
    ensures Shape(rings) && |lists| == LEVELS && |currq| == |qued| == NPROC
    ensures forall lv :: 0 <= lv < LEVELS ==> rings[lv].size == |lists[lv]|
    ensures forall p :: 0 <= p < NPROC ==> 0 <= currq[p] < LEVELS
  {
  }
}
