/** The rings of the scheduler field by field: what a pass of aging stores into them, and how
    many processes they count. */
module MlfqRings {
  import opened Counting
  import opened MlfqQueues

  // ---- What a pass stores into one ring ----

  /** The ring after `k` calls of que_pop. */
  function PopMany(r: Ring, k: nat): (r': Ring)
    requires Shaped(r) && k <= NPROC
    ensures Shaped(r')
  {
    Ring(r.procs, Place(r.head, k), r.tail, r.size - k)
  }

  /** The ring after the processes of `ps` are pushed in turn. */
  function PushMany(r: Ring, ps: seq<nat>): (r': Ring)
    requires Shaped(r) && forall i :: 0 <= i < |ps| ==> ps[i] < NPROC
    ensures Shaped(r')
    decreases |ps|
  {
    if ps == [] then r else PushMany(Push(r, ps[0]), ps[1..])
  }

  lemma {:induction false} PopNext(r: Ring, k: nat)
    requires Shaped(r) && 0 < r.size && 1 <= k <= NPROC
    ensures PopMany(Pop(r), k - 1) == PopMany(r, k)
  {
  }

  /** Pushing on a ring that is not empty: behind the tail. */
  lemma {:induction false} PushedOn(r: Ring, ps: seq<nat>, j: nat)
    requires Shaped(r) && 0 < r.size && r.size + |ps| <= NPROC && j < NPROC
    requires forall i :: 0 <= i < |ps| ==> ps[i] < NPROC
    ensures var r' := PushMany(r, ps);
            && r'.head == r.head && r'.tail == Place(r.tail, |ps|) && r'.size == r.size + |ps|
            && ((forall i :: 0 <= i < |ps| ==> Place(r.tail, i) != j) ==> r'.procs[j] == r.procs[j])
    decreases |ps|
  {
    if ps != [] {
      var r1 := Push(r, ps[0]);
      PushedOn(r1, ps[1..], j);
      if forall i :: 0 <= i < |ps| ==> Place(r.tail, i) != j {
        assert Place(r.tail, 0) != j;
        forall i | 0 <= i < |ps[1..]| ensures Place(r1.tail, i) != j {
          assert Place(r.tail, i + 1) != j;
        }
      }
    }
  }

  /** Pushing on an empty ring: it starts again at place 0. */
  lemma {:induction false} PushedNew(r: Ring, ps: seq<nat>, j: nat)
    requires Shaped(r) && r.size == 0 && 0 < |ps| <= NPROC && j < NPROC
    requires forall i :: 0 <= i < |ps| ==> ps[i] < NPROC
    ensures var r' := PushMany(r, ps);
            && r'.head == 0 && r'.tail == |ps| % 64 && r'.size == |ps|
            && (|ps| <= j ==> r'.procs[j] == r.procs[j])
  {
    PushedOn(Push(r, ps[0]), ps[1..], j);
  }

  /** One climb: the ring of the level is popped and the ring above is pushed. */
  lemma {:induction false} ClimbRings(rings: seq<Ring>, lv: nat, q: seq<nat>, due: seq<bool>)
    requires Shape(rings) && 0 < lv < LEVELS && |due| == NPROC && RingIs(rings[lv], q, 0)
    ensures forall i :: 0 <= i < |q| ==> q[i] < NPROC
    ensures var o, k := Climb(rings, lv, due).rings, Lead(q, due);
            k <= NPROC && o[lv] == PopMany(rings[lv], k) && o[lv - 1] == PushMany(rings[lv - 1], q[..k])
    decreases |q|
  {
    hide Push, RingIs, Lead, PushMany, PopMany;
    RingProcs(rings[lv], q);
    LeadNext(q, due);
    NoneMoved(rings[lv], rings[lv - 1]);
    if q == [] {
      assert q[..0] == [];
    } else {
      PopOk(rings[lv], q, 0);
      if due[q[0]] {
        var rings' := rings[lv := Pop(rings[lv])][lv - 1 := Push(rings[lv - 1], q[0])];
        ClimbRings(rings', lv, q[1..], due);
        var k := Lead(q, due);
        PopNext(rings[lv], k);
        PushNext(rings[lv - 1], q, k);
      } else {
        assert q[..0] == [];
      }
    }
  }

  lemma {:induction false} NoneMoved(r: Ring, a: Ring)
    requires Shaped(r) && Shaped(a)
    ensures PopMany(r, 0) == r && PushMany(a, []) == a
  {
  }

  lemma {:induction false} PushNext(r: Ring, q: seq<nat>, k: nat)
    requires Shaped(r) && 1 <= k <= |q| && forall i :: 0 <= i < |q| ==> q[i] < NPROC
    ensures PushMany(r, q[..k]) == PushMany(Push(r, q[0]), q[1..][..k - 1])
  {
    assert q[..k][1..] == q[1..][..k - 1];
  }

  lemma {:induction false} RingProcs(r: Ring, q: seq<nat>)
    requires RingIs(r, q, 0)
    ensures |q| <= NPROC && Shaped(r) && r.size == |q| && forall i :: 0 <= i < |q| ==> q[i] < NPROC
  {
    forall i | 0 <= i < |q| ensures q[i] < NPROC {
      assert r.procs[Place(r.head, i)] == q[i];
    }
  }

  /** The processes that come to level `x` from the level below. */
  ghost function Coming(lists: Queues, x: nat, due: seq<bool>): seq<nat>
    requires x < |lists|
  {
    if x + 1 < |lists| then lists[x + 1][..Lead(lists[x + 1], due)] else []
  }

  /** The ring of level `x` after a pass. */
  ghost function NextRing(rings: seq<Ring>, lists: Queues, x: nat, due: seq<bool>): (r: Ring)
    requires Shape(rings) && |lists| == LEVELS && x < LEVELS
    ensures Shaped(r)
  {
    var k, ps := Count(lists, x, due), Coming(lists, x, due);
    if k <= NPROC && forall i :: 0 <= i < |ps| ==> ps[i] < NPROC then PushMany(PopMany(rings[x], k), ps) else rings[x]
  }

  /** The rest of a pass from level `x + 1` on, for the ring of level `x`. */
  lemma {:induction false} PassPush(rings: seq<Ring>, lists: Queues, x: nat, due: seq<bool>)
    requires RingsAre(rings, lists, -1) && Roomy(lists, x + 1, -1) && |due| == NPROC && Shape(rings) && x < LEVELS
    ensures forall i :: 0 <= i < |Coming(lists, x, due)| ==> Coming(lists, x, due)[i] < NPROC
    ensures Pass(rings, x + 1, due).rings[x] == PushMany(rings[x], Coming(lists, x, due))
  {
    hide RingIs, Climb, Lead, PushMany, PopMany;
    NoneMoved(rings[x], rings[x]);
    if x + 1 < LEVELS {
      ClimbRings(rings, x + 1, lists[x + 1], due);
    }
  }

  lemma {:induction false} PassRing(rings: seq<Ring>, lists: Queues, lv: nat, x: nat, due: seq<bool>)
    requires RingsAre(rings, lists, -1) && 0 < lv <= x + 1 <= LEVELS && Roomy(lists, lv, -1) && |due| == NPROC
    requires Shape(rings) && (lv == x + 1 ==> x == 0)
    ensures Pass(rings, lv, due).rings[x] == NextRing(rings, lists, x, due)
    decreases x + 1 - lv
  {
    hide RingIs, RingsAre, Roomy, Climb, Lead, PushMany, PopMany;
    RingsShape(rings, lists, -1);
    if lv == x + 1 {
      PassPush(rings, lists, x, due);
      NoneMoved(rings[x], rings[x]);
    } else {
      var a, k := Climb(rings, lv, due), Lead(lists[lv], due);
      var l := Up(lists, lv, k);
      ClimbOk(rings, lists, -1, lv, due);
      RoomyUp(rings, lists, lv, due);
      if lv == x {
        RingOf(rings, lists, x);
        ClimbRings(rings, x, lists[x], due);
        PassPush(a.rings, l, x, due);
      } else {
        PassRing(a.rings, l, lv + 1, x, due);
      }
    }
  }

  lemma {:induction false} RoomyUp(rings: seq<Ring>, lists: Queues, lv: nat, due: seq<bool>)
    requires 0 < lv < LEVELS && Roomy(lists, lv, -1)
    ensures Roomy(Up(lists, lv, Lead(lists[lv], due)), lv + 1, -1)
  {
    hide Lead;
  }

  lemma {:induction false} RingOf(rings: seq<Ring>, lists: Queues, x: nat)
    requires RingsAre(rings, lists, -1) && x < LEVELS
    ensures |rings| == |lists| == LEVELS && RingIs(rings[x], lists[x], 0)
  {
  }

  // ---- Counting the queued processes ----

  ghost function Flagged(qued: seq<bool>): set<nat> {
    set p: nat | p < |qued| && qued[p]
  }

  /** The sizes of all rings together. */
  function Total(rings: seq<Ring>): int
    requires |rings| == LEVELS
  {
    rings[0].size + rings[1].size + rings[2].size + rings[3].size + rings[4].size
  }

  lemma {:induction false} ClimbTotal(rings: seq<Ring>, lv: nat, due: seq<bool>)
    requires Shape(rings) && 0 < lv < LEVELS && |due| == NPROC
    ensures Total(Climb(rings, lv, due).rings) == Total(rings)
    decreases if rings[lv].size < 0 then 0 else rings[lv].size
  {
    hide Shaped;
    var p := Front(rings[lv]);
    if rings[lv].size > 0 && p != -1 && due[p] {
      ClimbTotal(rings[lv := Pop(rings[lv])][lv - 1 := Push(rings[lv - 1], p)], lv, due);
    }
  }

  /** A pass counts as many processes as before, whatever the rings hold. */
  lemma {:induction false} PassTotal(rings: seq<Ring>, lv: nat, due: seq<bool>)
    requires Shape(rings) && 0 < lv <= LEVELS && |due| == NPROC
    ensures Total(Pass(rings, lv, due).rings) == Total(rings)
    decreases LEVELS - lv
  {
    hide Climb, Total;
    if lv < LEVELS {
      ClimbTotal(rings, lv, due);
      PassTotal(Climb(rings, lv, due).rings, lv + 1, due);
    }
  }

  /** The first `n` levels in a row. */
  ghost function Joined(lists: Queues, n: nat): seq<nat>
    requires n <= |lists|
  {
    if n == 0 then [] else Joined(lists, n - 1) + lists[n - 1]
  }

  ghost predicate InFirst(p: nat, n: nat, currq: seq<int>, qued: seq<bool>, out: int) {
    p < |currq| && p < |qued| && qued[p] && p != out && currq[p] < n
  }

  lemma {:induction false} JoinedOk(lists: Queues, currq: seq<int>, qued: seq<bool>, out: int, n: nat)
    requires Placed(lists, currq, qued, out) && n <= LEVELS
    ensures Distinct(Joined(lists, n))
    ensures forall p: nat :: p in Joined(lists, n) <==> InFirst(p, n, currq, qued, out)
  {
    PlacedSizes(lists, currq, qued, out);
    if n == 0 {
      assert forall p: nat :: !InFirst(p, 0, currq, qued, out);
    } else {
      JoinedOk(lists, currq, qued, out, n - 1);
      var a, b := Joined(lists, n - 1), lists[n - 1];
      forall p: nat ensures p in b <==> InFirst(p, n, currq, qued, out) && currq[p] == n - 1 {
        if p in b { OneQueue(lists, currq, qued, out, n - 1, p); }
      }
      NoRepeats(lists, currq, qued, out, n - 1);
      JoinDistinct(a, b, currq, n - 1);
    }
  }

  lemma {:induction false} JoinDistinct(a: seq<nat>, b: seq<nat>, currq: seq<int>, n: nat)
    requires Distinct(a) && Distinct(b)
    requires forall p :: p in a ==> p < |currq| && currq[p] < n
    requires forall p :: p in b ==> p < |currq| && currq[p] == n
    ensures Distinct(a + b)
  {
    forall i, j | 0 <= i < j < |a + b| ensures (a + b)[i] != (a + b)[j] {
      assert i < |a| ==> a[i] in a;
      assert |a| <= j ==> b[j - |a|] in b;
    }
  }

  lemma {:induction false} NoRepeats(lists: Queues, currq: seq<int>, qued: seq<bool>, out: int, lv: nat)
    requires Placed(lists, currq, qued, out) && lv < LEVELS
    ensures |lists| == LEVELS && Distinct(lists[lv])
  {
    assert LevelOk(lists[lv], lv, currq, qued);
  }

  /** Every flagged process is counted once. */
  lemma {:induction false} AllCounted(rings: seq<Ring>, lists: Queues, currq: seq<int>, qued: seq<bool>, over: int,
                                      out: int)
    requires RingsAre(rings, lists, over) && Placed(lists, currq, qued, out) && over < LEVELS
    requires over >= 0 <==> out >= 0
    ensures |rings| == LEVELS && Total(rings) == |Flagged(qued)|
  {
    JoinedOk(lists, currq, qued, out, LEVELS);
    var all := Joined(lists, LEVELS);
    JoinedSize(lists);
    OutFlagged(lists, currq, qued, out);
    var rest := if out >= 0 then Flagged(qued) - {out} else Flagged(qued);
    forall p: nat ensures p in Elements(all) <==> p in rest {
      if p < NPROC { PlacedLevel(lists, currq, qued, out, p); }
    }
    assert Elements(all) == rest;
  }

  lemma {:induction false} PlacedLevel(lists: Queues, currq: seq<int>, qued: seq<bool>, out: int, p: nat)
    requires Placed(lists, currq, qued, out) && p < NPROC
    ensures |currq| == |qued| == NPROC && currq[p] < LEVELS
  {
  }

  lemma {:induction false} OutFlagged(lists: Queues, currq: seq<int>, qued: seq<bool>, out: int)
    requires Placed(lists, currq, qued, out)
    ensures |currq| == |qued| == NPROC && (out >= 0 ==> out in Flagged(qued))
  {
  }

  lemma {:induction false} JoinedSize(lists: Queues)
    requires |lists| == LEVELS
    ensures |Joined(lists, LEVELS)| == |lists[0]| + |lists[1]| + |lists[2]| + |lists[3]| + |lists[4]|
  {
    assert |Joined(lists, 1)| == |lists[0]|;
    assert |Joined(lists, 2)| == |Joined(lists, 1)| + |lists[1]|;
    assert |Joined(lists, 3)| == |Joined(lists, 2)| + |lists[2]|;
    assert |Joined(lists, 4)| == |Joined(lists, 3)| + |lists[3]|;
  }

  lemma {:induction false} ClearedCount(qued: seq<bool>, p: nat)
    requires p < |qued|
    ensures |Flagged(qued[p := false])| == |Flagged(qued)| - if qued[p] then 1 else 0
  {
    assert Flagged(qued[p := false]) == Flagged(qued) - {p};
  }

  /** A size that is stored wrongly: the rings do not count the flagged processes any more. */
  lemma {:induction false} Miscounted(rings: seq<Ring>, qued: seq<bool>, currq: seq<int>, q: nat, r: Ring, p: nat)
    requires |rings| == LEVELS && q < LEVELS && p < |qued| && Total(rings) == |Flagged(qued)|
    requires rings[q].size - r.size != if qued[p] then 1 else 0
    ensures !Consistent(rings[q := r], currq, qued[p := false])
  {
    ClearedCount(qued, p);
    var rings', qued' := rings[q := r], qued[p := false];
    forall l ensures !QueuesOk(rings', l, currq, qued') {
      if QueuesOk(rings', l, currq, qued') {
        AllCounted(rings', l, currq, qued', -1, -1);
        assert false;
      }
    }
  }
}
