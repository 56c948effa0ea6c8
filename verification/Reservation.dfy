/** Reservation of log space: what begin_op, log_write and end_op do to the count of logged
    blocks and to the budgets of the outstanding operations, over whole runs. */
module Reservation {
  import opened Counting
  import opened LogFormat
  import opened Types

  /** Log space that outstanding operations reserved and have not used. */
  ghost function Unused(used: seq<nat>): (r: nat)
    ensures (exists i :: 0 <= i < |used| && used[i] < MAXOPBLOCKS) ==> r > 0
    ensures r <= |used| * MAXOPBLOCKS
  {
    if used == [] then 0
    else
      var m := |used| - 1;
      (if used[m] <= MAXOPBLOCKS then MAXOPBLOCKS - used[m] else 0) + Unused(used[..m])
  }

  lemma {:induction false} UseOne(used: seq<nat>, i: nat)
    requires i < |used| && used[i] < MAXOPBLOCKS
    ensures Unused(used[i := used[i] + 1]) == Unused(used) - 1
    decreases |used|
  {
    var m := |used| - 1;
    if i < m {
      assert used[i := used[i] + 1][..m] == used[..m][i := used[i] + 1];
      UseOne(used[..m], i);
    } else {
      assert used[i := used[i] + 1][..m] == used[..m];
    }
  }

  lemma {:induction false} DropOne(used: seq<nat>, i: nat)
    requires i < |used|
    ensures Unused(Without(used, i)) <= Unused(used)
    decreases |used|
  {
    var m := |used| - 1;
    if i < m {
      assert Without(used, i)[..m - 1] == Without(used[..m], i);
      DropOne(used[..m], i);
    } else {
      assert Without(used, i) == used[..m];
    }
  }

  /** The logged blocks, and how many of them each outstanding operation has added. */
  datatype Space = Space(blocks: seq<nat>, used: seq<nat>)

  /** Logged blocks and unused budgets together fit the log. */
  ghost predicate Within(s: Space) {
    && (forall i :: 0 <= i < |s.used| ==> s.used[i] <= MAXOPBLOCKS)
    && |s.blocks| + Unused(s.used) <= LOGSIZE
  }

  /** log_write does not panic, for a log of `size` blocks; whether the block is logged
      already is not asked. */
  ghost predicate CanWrite(s: Space, size: nat) {
    |s.blocks| < LOGSIZE && |s.blocks| < size - 1 && |s.used| >= 1
  }

  /** Operation `op` is outstanding and within its budget. */
  ghost predicate HasBudget(s: Space, op: nat) {
    op < |s.used| && s.used[op] < MAXOPBLOCKS
  }

  /** The steps: begin_op, log_write of block `b`, end_op, and the end_op that commits. */
  datatype Step = Begin | LogBlock(op: nat, b: nat) | End(op: nat) | EndLast

  ghost predicate Next(s: Space, a: Step, s': Space, size: nat) {
    match a
    case Begin => |s.blocks| + (|s.used| + 1) * MAXOPBLOCKS <= LOGSIZE && s' == s.(used := s.used + [0])
    case LogBlock(op, b) =>
      && CanWrite(s, size) && op < |s.used|
      && if b in s.blocks then s' == s
         else HasBudget(s, op) && s' == Space(s.blocks + [b], s.used[op := s.used[op] + 1])
    case End(op) => op < |s.used| && |s.used| > 1 && s' == s.(used := Without(s.used, op))
    case EndLast => |s.used| == 1 && s' == Space([], [])
  }

  datatype Run = Start | Go(before: Run, a: Step, s: Space)

  ghost function Last(r: Run): Space {
    if r.Start? then Space([], []) else r.s
  }

  ghost predicate RunOk(r: Run, size: nat) {
    r.Go? ==> RunOk(r.before, size) && Next(Last(r.before), r.a, r.s, size)
  }

  lemma {:induction false} NoneWithin()
    ensures Within(Space([], []))
  {
  }

  lemma {:induction false} BeginWithin(s: Space)
    requires Within(s) && |s.blocks| + (|s.used| + 1) * MAXOPBLOCKS <= LOGSIZE
    ensures Within(s.(used := s.used + [0]))
  {
    assert (s.used + [0])[..|s.used|] == s.used;
  }

  lemma {:induction false} AddWithin(s: Space, op: nat, b: nat)
    requires Within(s) && HasBudget(s, op)
    ensures Within(Space(s.blocks + [b], s.used[op := s.used[op] + 1]))
  {
    UseOne(s.used, op);
  }

  lemma {:induction false} EndWithin(s: Space, op: nat)
    requires Within(s) && op < |s.used|
    ensures Within(s.(used := Without(s.used, op)))
  {
    DropOne(s.used, op);
  }

  lemma {:induction false} StepWithin(s: Space, a: Step, s': Space, size: nat)
    requires Within(s) && Next(s, a, s', size)
    ensures Within(s')
  {
    hide Within;
    match a
    case Begin => BeginWithin(s);
    case LogBlock(op, b) => if b !in s.blocks { AddWithin(s, op, b); }
    case End(op) => EndWithin(s, op);
    case EndLast => NoneWithin();
  }

  /** Over every run, logged blocks plus the unused budgets of outstanding operations fit. */
  lemma {:induction false} RunWithin(r: Run, size: nat)
    requires RunOk(r, size)
    ensures Within(Last(r))
  {
    if r.Go? {
      RunWithin(r.before, size);
      StepWithin(Last(r.before), r.a, r.s, size);
    }
  }

  /** Blocks 0 to k-1 logged by three operations that fill their budgets one after the other. */
  ghost function Filling(k: nat): Space
    requires k <= LOGSIZE
  {
    Space(seq(k, b => b),
          if k <= 10 then [k, 0, 0] else if k <= 20 then [10, k - 10, 0] else [10, 10, k - 20])
  }

  ghost function FillingRun(k: nat): Run
    requires k <= LOGSIZE
  {
    if k == 0 then
      Go(Go(Go(Start, Begin, Space([], [0])), Begin, Space([], [0, 0])), Begin, Space([], [0, 0, 0]))
    else
      Go(FillingRun(k - 1), LogBlock((k - 1) / 10, k - 1), Filling(k))
  }

  lemma {:induction false} FillingStep(k: nat, size: nat)
    requires 1 <= k <= LOGSIZE && k < size
    ensures Next(Filling(k - 1), LogBlock((k - 1) / 10, k - 1), Filling(k), size)
  {
    var s, op := Filling(k - 1), (k - 1) / 10;
    assert Filling(k).blocks == s.blocks + [k - 1];
    assert op == (if k <= 10 then 0 else if k <= 20 then 1 else 2);
    assert Filling(k).used == s.used[op := s.used[op] + 1];
  }

  lemma {:induction false} FillingRunOk(k: nat, size: nat)
    requires k <= LOGSIZE && k < size
    ensures RunOk(FillingRun(k), size) && Last(FillingRun(k)) == Filling(k)
  {
    if k == 0 {
      var r1 := Go(Start, Begin, Space([], [0]));
      var r2 := Go(r1, Begin, Space([], [0, 0]));
      assert RunOk(Start, size);
      assert [] + [0] == [0] && [0] + [0] == [0, 0] && [0, 0] + [0] == [0, 0, 0];
      assert RunOk(r1, size) && RunOk(r2, size);
      assert Filling(0).blocks == [];
    } else {
      FillingRunOk(k - 1, size);
      FillingStep(k, size);
    }
  }

  /** An operation within its budget never meets the "too big a transaction" panic, in any
      run, exactly when the log has room for LOGSIZE blocks behind its header. */
  lemma {:induction false} NoPanicIff(size: nat)
    requires size >= 1
    ensures size - 1 >= LOGSIZE <==>
            forall r: Run, op: nat :: RunOk(r, size) && HasBudget(Last(r), op) ==> CanWrite(Last(r), size)
  {
    if size - 1 >= LOGSIZE {
      forall r: Run, op: nat | RunOk(r, size) && HasBudget(Last(r), op) ensures CanWrite(Last(r), size) {
        RunWithin(r, size);
      }
    } else {
      FillingRunOk(size - 1, size);
      var k := size - 1;
      assert HasBudget(Filling(k), k / 10);
      assert !CanWrite(Filling(k), size);
    }
  }

  lemma {:induction false} NoneUnused(used: seq<nat>)
    requires Unused(used) == 0 && forall i :: 0 <= i < |used| ==> used[i] <= MAXOPBLOCKS
    ensures forall i :: 0 <= i < |used| ==> used[i] == MAXOPBLOCKS
  {
    if used != [] { NoneUnused(used[..|used| - 1]); }
  }

  /** The bound is tested before absorption.  Logging a block again that is in the log, which
      takes no space, panics exactly if the log is full; every budget is then used up. */
  lemma {:induction false} RelogPanicIff(r: Run, size: nat, op: nat, b: nat)
    requires size - 1 >= LOGSIZE && RunOk(r, size) && op < |Last(r).used| && b in Last(r).blocks
    ensures Next(Last(r), LogBlock(op, b), Last(r), size) <==> |Last(r).blocks| != LOGSIZE
    ensures |Last(r).blocks| == LOGSIZE ==> forall i :: 0 <= i < |Last(r).used| ==> Last(r).used[i] == MAXOPBLOCKS
  {
    RunWithin(r, size);
    if |Last(r).blocks| == LOGSIZE { NoneUnused(Last(r).used); }
  }

  /** And it comes to that: block 0 is logged, within the budgets, and cannot be logged again. */
  lemma {:induction false} FullLogPanics(size: nat)
    requires size - 1 >= LOGSIZE
    ensures var r := FillingRun(LOGSIZE);
            && RunOk(r, size) && 0 in Last(r).blocks && |Last(r).used| == 3
            && forall op: nat, s: Space :: !Next(Last(r), LogBlock(op, 0), s, size)
  {
    FillingRunOk(LOGSIZE, size);
    assert Last(FillingRun(LOGSIZE)).blocks[0] == 0;
  }
}
