/** Crash atomicity of the redo log: a crash after any single block write of a
    commit, followed by any number of crashes inside recovery. */
module CrashAtomicity {
  import opened LogFormat

  /** Where a crash after the first `k` writes of a commit leaves the disk. */
  function CrashedCommit(d: Disk, L: Layout, tx: Tx, k: nat): (r: Disk)
    requires LayoutOk(L, d) && TxOk(tx, L, |d|)
    requires k <= CommitPlan(d[L.start], L, tx).Len()
    ensures |r| == |d|
  {
    Apply(d, CommitPlan(d[L.start], L, tx), k)
  }

  /** A recovery that crashes after `c` of its writes (all of them if it has fewer). */
  function CrashedRecovery(d: Disk, L: Layout, c: nat): (r: Disk)
    requires HeadOk(d, L)
    ensures |r| == |d|
  {
    var p := Recovery(d, L);
    Apply(d, p, if c < p.Len() then c else p.Len())
  }

  /** Recoveries that each crash after `cuts[i]` of their writes. */
  ghost function CrashedRecoveries(d: Disk, L: Layout, cuts: seq<nat>): (r: Disk)
    requires HeadOk(d, L)
    ensures HeadOk(r, L) && |r| == |d|
    decreases |cuts|
  {
    if cuts == [] then d
    else
      RecoveryCut(d, L, cuts[0]);
      CrashedRecoveries(CrashedRecovery(d, L, cuts[0]), L, cuts[1..])
  }

  /** Installing the first `k` blocks: exactly those are at their new value. */
  lemma {:induction false} InstallAt(d: Disk, L: Layout, tx: Tx, k: nat)
    requires TxOk(tx, L, |d|) && k <= |tx.blocks|
    ensures var e := Apply(d, InstallPlan(tx), k);
            && (forall t :: 0 <= t < |tx.blocks| ==>
                  e[tx.blocks[t]] == if t < k then tx.data[t] else d[tx.blocks[t]])
            && (forall b :: 0 <= b < |d| && b !in tx.blocks ==> e[b] == d[b])
  {
    var p := InstallPlan(tx);
    var e := Apply(d, p, k);
    forall t | 0 <= t < |tx.blocks|
      ensures e[tx.blocks[t]] == if t < k then tx.data[t] else d[tx.blocks[t]]
    {
      if t < k { ApplyHit(d, p, k, t); } else { ApplyFrame(d, p, k, tx.blocks[t]); }
    }
    forall b: nat | b < |d| && b !in tx.blocks
      ensures e[b] == d[b]
    {
      ApplyFrame(d, p, k, b);
    }
  }

  /** Installing any first part of a transaction and then all of it is installing it. */
  lemma {:induction false} InstallAbsorbs(d: Disk, L: Layout, tx: Tx, k: nat)
    requires TxOk(tx, L, |d|) && k <= |tx.blocks|
    ensures After(Apply(d, InstallPlan(tx), k), tx) == After(d, tx)
  {
    var e := Apply(d, InstallPlan(tx), k);
    InstallAt(d, L, tx, k);
    InstallAt(e, L, tx, |tx.blocks|);
    InstallAt(d, L, tx, |tx.blocks|);
    forall b | 0 <= b < |d|
      ensures After(e, tx)[b] == After(d, tx)[b]
    {
      if b in tx.blocks { var t :| 0 <= t < |tx.blocks| && tx.blocks[t] == b; }
    }
  }

  lemma {:induction false} InstallKeepsHome(d: Disk, e: Disk, L: Layout, tx: Tx)
    requires TxOk(tx, L, |d|) && SameHome(d, e, L)
    ensures SameHome(After(d, tx), After(e, tx), L)
  {
    InstallAt(d, L, tx, |tx.blocks|);
    InstallAt(e, L, tx, |tx.blocks|);
    forall b | 0 <= b < |d| && !L.InLog(b)
      ensures After(d, tx)[b] == After(e, tx)[b]
    {
      if b in tx.blocks { var t :| 0 <= t < |tx.blocks| && tx.blocks[t] == b; }
    }
  }

  /** Storing a block list in the header and reading it back. */
  lemma {:induction false} HeadRoundTrip(h: Block, blocks: seq<nat>)
    requires |blocks| <= LOGSIZE && |h.words| == WORDS
    ensures var g := PutHead(h, blocks); HeadWordsOk(g) && HeadBlocks(g) == blocks
  {
    var g := PutHead(h, blocks);
    assert forall w :: 1 <= w <= |blocks| ==> g.words[w] == blocks[w - 1];
    assert HeadBlocks(g) == blocks;
  }

  /** What a complete recovery does: the log's transaction installed, the header cleared. */
  lemma {:induction false} RecoveredIs(d: Disk, L: Layout)
    requires HeadOk(d, L)
    ensures SameHome(Recovered(d, L), After(d, DiskTx(d, L)), L)
    ensures LogClear(Recovered(d, L), L)
  {
    var tx := DiskTx(d, L);
    ApplyShift(d, Recovery(d, L), 0, InstallPlan(tx), |tx.blocks|);
    assert Recovered(d, L) == After(d, tx)[L.start := PutHead(d[L.start], [])];
  }

  /** With an empty log, recovery changes no home block. */
  lemma {:induction false} RecoveredClear(d: Disk, L: Layout)
    requires LogClear(d, L)
    ensures HeadOk(d, L) && SameHome(Recovered(d, L), d, L)
  {
    RecoveredIs(d, L);
  }

  /** A disk with the header and the log blocks of a transaction holds that transaction. */
  lemma {:induction false} LoggedIs(e: Disk, L: Layout, tx: Tx)
    requires LayoutOk(L, e) && TxOk(tx, L, |e|)
    requires HeadWordsOk(e[L.start]) && HeadBlocks(e[L.start]) == tx.blocks
    requires forall t :: 0 <= t < |tx.blocks| ==> e[L.start + 1 + t] == tx.data[t]
    ensures HeadOk(e, L) && DiskTx(e, L) == tx
  {
    assert DiskTx(e, L).data == tx.data;
  }

  /** Disks that agree on the log region hold the same transaction. */
  lemma {:induction false} SameLog(d: Disk, e: Disk, L: Layout)
    requires HeadOk(d, L) && |e| == |d| && forall b :: 0 <= b < |d| && L.InLog(b) ==> e[b] == d[b]
    ensures HeadOk(e, L) && DiskTx(e, L) == DiskTx(d, L)
  {
    assert L.InLog(L.start);
    assert DiskTx(e, L).data == DiskTx(d, L).data;
  }

  /** A crash inside the installation phase: the log still holds the whole transaction. */
  lemma {:induction false} MidInstall(d: Disk, L: Layout, tx: Tx, k: nat, e: Disk)
    requires HeadOk(d, L) && DiskTx(d, L) == tx && k <= |tx.blocks| && e == Apply(d, InstallPlan(tx), k)
    ensures HeadOk(e, L) && SameHome(Recovered(e, L), After(d, tx), L)
  {
    InstallAt(d, L, tx, k);
    SameLog(d, e, L);
    InstallAbsorbs(d, L, tx, k);
    RecoveredIs(e, L);
  }

  /** A recovery cut short leaves a disk that recovers to the same home blocks; a complete
      one leaves the log empty, so recovery is idempotent. */
  lemma {:induction false} RecoveryCut(d: Disk, L: Layout, c: nat)
    requires HeadOk(d, L)
    ensures HeadOk(CrashedRecovery(d, L, c), L)
    ensures SameHome(Recovered(CrashedRecovery(d, L, c), L), Recovered(d, L), L)
    ensures c >= Recovery(d, L).Len() ==> LogClear(CrashedRecovery(d, L, c), L)
  {
    var tx := DiskTx(d, L);
    RecoveredIs(d, L);
    if c <= |tx.blocks| {
      ApplyShift(d, Recovery(d, L), 0, InstallPlan(tx), c);
      MidInstall(d, L, tx, c, CrashedRecovery(d, L, c));
    } else {
      RecoveredClear(Recovered(d, L), L);
    }
  }

  /** The log writes put the transaction's contents in the log and touch nothing else. */
  lemma {:induction false} LogWritten(d: Disk, L: Layout, tx: Tx, k: nat)
    requires LayoutOk(L, d) && TxOk(tx, L, |d|) && k <= |tx.blocks|
    ensures var e := Apply(d, LogPlan(L, tx), k);
            && (forall t :: 0 <= t < k ==> e[L.start + 1 + t] == tx.data[t])
            && e[L.start] == d[L.start] && SameHome(e, d, L)
  {
    var p := LogPlan(L, tx);
    forall t | 0 <= t < k ensures Apply(d, p, k)[L.start + 1 + t] == tx.data[t] {
      assert p.At(t).bno == L.start + 1 + t;
      ApplyHit(d, p, k, t);
    }
    forall b: nat | b < |d| && (L.InLog(b) ==> b == L.start) ensures Apply(d, p, k)[b] == d[b] {
      ApplyFrame(d, p, k, b);
    }
  }

  /** The log writes and the header write make the transaction the log's. */
  lemma {:induction false} HeaderCommits(d: Disk, L: Layout, tx: Tx)
    requires LayoutOk(L, d) && TxOk(tx, L, |d|) && 0 < |tx.blocks|
    ensures var e := CrashedCommit(d, L, tx, |tx.blocks| + 1);
            && HeadOk(e, L) && DiskTx(e, L) == tx && SameHome(e, d, L)
            && e[L.start] == PutHead(d[L.start], tx.blocks)
  {
    var n, p := |tx.blocks|, CommitPlan(d[L.start], L, tx);
    var e := Apply(d, p, n + 1);
    ApplyShift(d, p, 0, LogPlan(L, tx), n);
    LogWritten(d, L, tx, n);
    assert e == Apply(d, LogPlan(L, tx), n)[L.start := PutHead(d[L.start], tx.blocks)];
    HeadRoundTrip(d[L.start], tx.blocks);
    LoggedIs(e, L, tx);
  }

  /** Crash before the header write: nothing happened to the home blocks. */
  lemma {:induction false} CutBeforeHeader(d: Disk, L: Layout, tx: Tx, k: nat)
    requires LogClear(d, L) && TxOk(tx, L, |d|) && k <= |tx.blocks|
    ensures k <= CommitPlan(d[L.start], L, tx).Len()
    ensures var e := CrashedCommit(d, L, tx, k); LogClear(e, L) && SameHome(e, d, L)
  {
    ApplyShift(d, CommitPlan(d[L.start], L, tx), 0, LogPlan(L, tx), k);
    LogWritten(d, L, tx, k);
  }

  lemma {:induction false} TailAt(d: Disk, h: Block, L: Layout, tx: Tx, i: nat)
    requires |h.words| == WORDS && 0 < |tx.blocks| == |tx.data| <= LOGSIZE && i <= |tx.blocks| + 1
    ensures Apply(d, CommitPlan(h, L, tx), |tx.blocks| + 1 + i)
         == Apply(Apply(d, CommitPlan(h, L, tx), |tx.blocks| + 1), RecoveryPlan(PutHead(h, tx.blocks), L, tx), i)
  {
    ApplyShift(d, CommitPlan(h, L, tx), |tx.blocks| + 1, RecoveryPlan(PutHead(h, tx.blocks), L, tx), i);
  }

  /** From the header write on, a commit does what a recovery does. */
  lemma {:induction false} CommitTail(d: Disk, L: Layout, tx: Tx, i: nat)
    requires LayoutOk(L, d) && TxOk(tx, L, |d|) && 0 < |tx.blocks| && i <= |tx.blocks| + 1
    ensures var e := CrashedCommit(d, L, tx, |tx.blocks| + 1);
            && HeadOk(e, L) && DiskTx(e, L) == tx
            && SameHome(e, d, L)
            && |tx.blocks| + 1 + i <= CommitPlan(d[L.start], L, tx).Len()
            && CrashedCommit(d, L, tx, |tx.blocks| + 1 + i) == CrashedRecovery(e, L, i)
  {
    HeaderCommits(d, L, tx);
    TailAt(d, d[L.start], L, tx, i);
    assert Recovery(CrashedCommit(d, L, tx, |tx.blocks| + 1), L) == RecoveryPlan(PutHead(d[L.start], tx.blocks), L, tx);
  }

  lemma {:induction false} CommittedRecovers(d: Disk, e: Disk, L: Layout, tx: Tx, i: nat, r: Disk)
    requires HeadOk(e, L) && DiskTx(e, L) == tx && SameHome(e, d, L) && r == CrashedRecovery(e, L, i)
    ensures HeadOk(r, L) && SameHome(Recovered(r, L), After(d, tx), L)
    ensures i > |tx.blocks| ==> LogClear(r, L)
  {
    InstallKeepsHome(e, d, L, tx);
    RecoveryCut(e, L, i);
    RecoveredIs(e, L);
  }

  /** Crash after the header write: the log, or the home blocks, hold the transaction. */
  lemma {:induction false} CutAfterHeader(d: Disk, L: Layout, tx: Tx, k: nat)
    requires LogClear(d, L) && TxOk(tx, L, |d|)
    requires 0 < |tx.blocks| < k <= CommitPlan(d[L.start], L, tx).Len()
    ensures HeadOk(CrashedCommit(d, L, tx, k), L)
    ensures SameHome(Recovered(CrashedCommit(d, L, tx, k), L), After(d, tx), L)
    ensures k == 2 * |tx.blocks| + 2 ==> LogClear(CrashedCommit(d, L, tx, k), L)
  {
    hide Apply, After, SameHome;
    var e, i := CrashedCommit(d, L, tx, |tx.blocks| + 1), k - |tx.blocks| - 1;
    CommitTail(d, L, tx, i);
    CommittedRecovers(d, e, L, tx, i, CrashedCommit(d, L, tx, k));
  }

  /** Crash after `k` writes of a commit, then one complete recovery: all home blocks old
      if the header write had not happened, all new if it had. */
  lemma {:induction false} CommitCut(d: Disk, L: Layout, tx: Tx, k: nat)
    requires LogClear(d, L) && TxOk(tx, L, |d|)
    requires k <= CommitPlan(d[L.start], L, tx).Len()
    ensures HeadOk(CrashedCommit(d, L, tx, k), L)
    ensures SameHome(Recovered(CrashedCommit(d, L, tx, k), L), if k <= |tx.blocks| then d else After(d, tx), L)
    ensures k == CommitPlan(d[L.start], L, tx).Len() ==> LogClear(CrashedCommit(d, L, tx, k), L)
  {
    if k <= |tx.blocks| {
      CutBeforeHeader(d, L, tx, k);
      RecoveredClear(CrashedCommit(d, L, tx, k), L);
    } else {
      CutAfterHeader(d, L, tx, k);
    }
  }

  lemma {:induction false} RecoveriesKeepHome(d: Disk, L: Layout, cuts: seq<nat>)
    requires HeadOk(d, L)
    ensures SameHome(Recovered(CrashedRecoveries(d, L, cuts), L), Recovered(d, L), L)
    decreases |cuts|
  {
    if cuts != [] {
      RecoveryCut(d, L, cuts[0]);
      RecoveriesKeepHome(CrashedRecovery(d, L, cuts[0]), L, cuts[1..]);
    }
  }

  /** Crash atomicity: any cut of the commit, any number of crashed recoveries, then a
      complete recovery.  Every home block is old before the header write and new after. */
  lemma {:induction false} CrashAtomic(d: Disk, L: Layout, tx: Tx, k: nat, cuts: seq<nat>)
    requires LogClear(d, L) && TxOk(tx, L, |d|)
    requires k <= CommitPlan(d[L.start], L, tx).Len()
    ensures HeadOk(CrashedCommit(d, L, tx, k), L)
    ensures var r := Recovered(CrashedRecoveries(CrashedCommit(d, L, tx, k), L, cuts), L);
            LogClear(r, L) && SameHome(r, if k <= |tx.blocks| then d else After(d, tx), L)
  {
    var e := CrashedCommit(d, L, tx, k);
    CommitCut(d, L, tx, k);
    RecoveriesKeepHome(e, L, cuts);
    RecoveredIs(CrashedRecoveries(e, L, cuts), L);
  }

  /** A commit that ran to its end. */
  lemma {:induction false} CommitDone(d: Disk, L: Layout, tx: Tx)
    requires LogClear(d, L) && TxOk(tx, L, |d|)
    ensures var e := CrashedCommit(d, L, tx, CommitPlan(d[L.start], L, tx).Len());
            LogClear(e, L) && SameHome(e, After(d, tx), L)
  {
    var k := CommitPlan(d[L.start], L, tx).Len();
    CommitCut(d, L, tx, k);
    RecoveredClear(CrashedCommit(d, L, tx, k), L);
  }

  // ---- Whole runs ----

  /** One transaction of a run: either it completes, or the machine crashes after `k` of its
      block writes and boots again with recoveries cut short at `cuts` before one completes. */
  datatype Attempt = Completes(tx: Tx) | Crashes(tx: Tx, k: nat, cuts: seq<nat>)

  predicate AttemptOk(a: Attempt, L: Layout, len: nat) {
    && TxOk(a.tx, L, len)
    && (a.Crashes? ==> a.k <= if |a.tx.blocks| == 0 then 0 else 2 * |a.tx.blocks| + 2)
  }

  ghost function RunAttempt(d: Disk, L: Layout, a: Attempt): (r: Disk)
    requires LogClear(d, L) && AttemptOk(a, L, |d|)
    ensures LogClear(r, L) && |r| == |d|
  {
    match a
    case Completes(tx) =>
      CommitDone(d, L, tx);
      CrashedCommit(d, L, tx, CommitPlan(d[L.start], L, tx).Len())
    case Crashes(tx, k, cuts) =>
      CrashAtomic(d, L, tx, k, cuts);
      Recovered(CrashedRecoveries(CrashedCommit(d, L, tx, k), L, cuts), L)
  }

  ghost function Run(d: Disk, L: Layout, run: seq<Attempt>): (r: Disk)
    requires LogClear(d, L) && forall i :: 0 <= i < |run| ==> AttemptOk(run[i], L, |d|)
    ensures LogClear(r, L) && |r| == |d|
    decreases |run|
  {
    if run == [] then d else RunAttempt(Run(d, L, run[..|run| - 1]), L, run[|run| - 1])
  }

  /** The header write of the attempt reached the disk. */
  predicate Committed(a: Attempt) {
    a.Completes? || a.k > |a.tx.blocks|
  }

  /** The simple system: committed transactions happen at once, the others not at all. */
  ghost function Atomically(d: Disk, run: seq<Attempt>): (r: Disk)
    requires forall i :: 0 <= i < |run| ==> |run[i].tx.blocks| == |run[i].tx.data| <= LOGSIZE
    ensures |r| == |d|
    decreases |run|
  {
    if run == [] then d
    else
      var e := Atomically(d, run[..|run| - 1]);
      var a := run[|run| - 1];
      if Committed(a) then After(e, a.tx) else e
  }

  lemma {:induction false} AttemptIsAtomic(d: Disk, L: Layout, a: Attempt)
    requires LogClear(d, L) && AttemptOk(a, L, |d|)
    ensures SameHome(RunAttempt(d, L, a), if Committed(a) then After(d, a.tx) else d, L)
  {
    match a
    case Completes(tx) => CommitDone(d, L, tx);
    case Crashes(tx, k, cuts) => CrashAtomic(d, L, tx, k, cuts);
  }

  /** Over every run of transactions, crashes and crashed recoveries, the home blocks are
      those of the system in which committed transactions happen atomically, in order. */
  lemma {:induction false} RunsAreAtomic(d: Disk, L: Layout, run: seq<Attempt>)
    requires LogClear(d, L) && forall i :: 0 <= i < |run| ==> AttemptOk(run[i], L, |d|)
    ensures SameHome(Run(d, L, run), Atomically(d, run), L)
    decreases |run|
  {
    if run != [] {
      var p, a := run[..|run| - 1], run[|run| - 1];
      RunsAreAtomic(d, L, p);
      AttemptIsAtomic(Run(d, L, p), L, a);
      if Committed(a) { InstallKeepsHome(Run(d, L, p), Atomically(d, p), L, a.tx); }
    }
  }
}
