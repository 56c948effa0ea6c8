/** The on-disk redo log: block writes, the header block, and what recovery
    makes of any disk image.  A disk is a sequence of blocks, a block a sequence
    of 32-bit words, and one `bwrite` is one atomic step. */
module LogFormat {
  import opened Counting
  import opened Types

  const LOGSIZE: nat := MAXOPBLOCKS * 3
  const WORDS: nat := 256  // BSIZE / sizeof(int)

  datatype Block = Block(words: seq<int>)
  type Disk = seq<Block>

  datatype Write = Write(bno: nat, data: Block)

  /** The log region: header at `start`, logged blocks behind it. */
  datatype Layout = Layout(start: nat, size: nat) {
    predicate InLog(b: nat) {
      start <= b < start + size
    }
  }

  /** A transaction: home block numbers and their new contents. */
  datatype Tx = Tx(blocks: seq<nat>, data: seq<Block>)

  /** The header block after storing `blocks` in it; the words behind stay. */
  function PutHead(h: Block, blocks: seq<nat>): (r: Block)
    requires |blocks| <= LOGSIZE && |h.words| == WORDS
    ensures |r.words| == WORDS
  {
    Block(seq(WORDS, w requires 0 <= w < WORDS =>
      if w == 0 then |blocks| else if w <= |blocks| then blocks[w - 1] else h.words[w]))
  }

  predicate LayoutOk(L: Layout, d: Disk) {
    1 <= L.size && L.start + L.size <= |d| && |d[L.start].words| == WORDS
  }

  /** `blocks` may be logged: distinct home blocks, few enough for the log. */
  predicate LoggableBlocks(blocks: seq<nat>, L: Layout, len: nat) {
    && |blocks| <= LOGSIZE
    && |blocks| <= L.size - 1
    && Distinct(blocks)
    && forall i :: 0 <= i < |blocks| ==> blocks[i] < len && !L.InLog(blocks[i])
  }

  predicate TxOk(tx: Tx, L: Layout, len: nat) {
    |tx.blocks| == |tx.data| && LoggableBlocks(tx.blocks, L, len)
  }

  predicate HeadWordsOk(h: Block) {
    |h.words| == WORDS && 0 <= h.words[0] <= LOGSIZE && forall w :: 1 <= w <= h.words[0] ==> 0 <= h.words[w]
  }

  function HeadBlocks(h: Block): (r: seq<nat>)
    requires HeadWordsOk(h)
  {
    seq(h.words[0], i requires 0 <= i < h.words[0] => h.words[1 + i])
  }

  /** A header a recovery can follow. */
  predicate HeadOk(d: Disk, L: Layout) {
    && LayoutOk(L, d)
    && HeadWordsOk(d[L.start])
    && LoggableBlocks(HeadBlocks(d[L.start]), L, |d|)
  }

  /** No transaction is committed in the log. */
  predicate LogClear(d: Disk, L: Layout) {
    LayoutOk(L, d) && d[L.start].words[0] == 0
  }

  /** The transaction that the log on disk holds. */
  function DiskTx(d: Disk, L: Layout): (tx: Tx)
    requires HeadOk(d, L)
    ensures TxOk(tx, L, |d|)
  {
    var bs := HeadBlocks(d[L.start]);
    Tx(bs, seq(|bs|, t requires 0 <= t < |bs| => d[L.start + 1 + t]))
  }

  // ---- Block writes ----

  /** What a routine writes to the disk, block by block. */
  datatype Plan =
    | LogPlan(L: Layout, tx: Tx)                // write_log
    | InstallPlan(tx: Tx)                       // install_trans
    | RecoveryPlan(h: Block, L: Layout, tx: Tx) // install_trans, then the empty header
    | CommitPlan(h: Block, L: Layout, tx: Tx)   // write_log, header, install_trans, empty header
  {
    predicate Ok() {
      && |tx.blocks| == |tx.data| <= LOGSIZE
      && (RecoveryPlan? || CommitPlan? ==> |h.words| == WORDS)
    }

    /** The number of block writes; an empty transaction commits without any. */
    function Len(): (r: nat)
      requires Ok()
    {
      var n := |tx.blocks|;
      match this
      case LogPlan(_, _) => n
      case InstallPlan(_) => n
      case RecoveryPlan(_, _, _) => n + 1
      case CommitPlan(_, _, _) => if n == 0 then 0 else 2 * n + 2
    }

    function At(t: nat): (w: Write)
      requires Ok() && t < Len()
    {
      var n := |tx.blocks|;
      match this
      case LogPlan(L, _) => Write(L.start + 1 + t, tx.data[t])
      case InstallPlan(_) => Write(tx.blocks[t], tx.data[t])
      case RecoveryPlan(h, L, _) =>
        if t < n then Write(tx.blocks[t], tx.data[t]) else Write(L.start, PutHead(h, []))
      case CommitPlan(h, L, _) =>
        if t < n then Write(L.start + 1 + t, tx.data[t])
        else if t == n then Write(L.start, PutHead(h, tx.blocks))
        else if t <= 2 * n then Write(tx.blocks[t - n - 1], tx.data[t - n - 1])
        else Write(L.start, PutHead(PutHead(h, tx.blocks), []))
    }
  }

  function Store(d: Disk, w: Write): (r: Disk)
    ensures |r| == |d|
  {
    if w.bno < |d| then d[w.bno := w.data] else d
  }

  /** The disk after the first `j` block writes of a plan. */
  function Apply(d: Disk, p: Plan, j: nat): (r: Disk)
    requires p.Ok() && j <= p.Len()
    ensures |r| == |d|
    decreases j
  {
    if j == 0 then d else Store(Apply(d, p, j - 1), p.At(j - 1))
  }

  /** The history of block writes since boot. */
  datatype Trace = Boot | Then(before: Trace, w: Write)

  function Extend(t: Trace, p: Plan, j: nat): (r: Trace)
    requires p.Ok() && j <= p.Len()
    decreases j
  {
    if j == 0 then t else Then(Extend(t, p, j - 1), p.At(j - 1))
  }

  /** Extending a history plan after plan, where `p` goes on like `q` from position `a`. */
  lemma {:induction false} ExtendShift(t: Trace, p: Plan, a: nat, q: Plan, i: nat)
    requires p.Ok() && q.Ok() && a + i <= p.Len() && i <= q.Len()
    requires forall k :: 0 <= k < i ==> p.At(a + k) == q.At(k)
    ensures Extend(t, p, a + i) == Extend(Extend(t, p, a), q, i)
    decreases i
  {
    if i > 0 {
      ExtendShift(t, p, a, q, i - 1);
      assert p.At(a + (i - 1)) == q.At(i - 1);
    }
  }

  function Recovery(d: Disk, L: Layout): (p: Plan)
    requires HeadOk(d, L)
    ensures p.Ok() && p.Len() == |DiskTx(d, L).blocks| + 1
  {
    RecoveryPlan(d[L.start], L, DiskTx(d, L))
  }

  function Recovered(d: Disk, L: Layout): (r: Disk)
    requires HeadOk(d, L)
    ensures |r| == |d|
  {
    Apply(d, Recovery(d, L), |DiskTx(d, L).blocks| + 1)
  }

  /** The disk with every home block of the transaction at its new value. */
  function After(d: Disk, tx: Tx): (r: Disk)
    requires |tx.blocks| == |tx.data| <= LOGSIZE
    ensures |r| == |d|
  {
    Apply(d, InstallPlan(tx), |tx.blocks|)
  }

  /** Equal on every block outside the log region. */
  predicate SameHome(d: Disk, e: Disk, L: Layout) {
    |d| == |e| && forall b :: 0 <= b < |d| && !L.InLog(b) ==> d[b] == e[b]
  }

  /** Where plan `p` goes on like `q` from position `a`. */
  lemma {:induction false} ApplyShift(d: Disk, p: Plan, a: nat, q: Plan, i: nat)
    requires p.Ok() && q.Ok() && a + i <= p.Len() && i <= q.Len()
    requires forall k :: 0 <= k < i ==> p.At(a + k) == q.At(k)
    ensures Apply(d, p, a + i) == Apply(Apply(d, p, a), q, i)
    decreases i
  {
    if i > 0 {
      ApplyShift(d, p, a, q, i - 1);
      assert p.At(a + (i - 1)) == q.At(i - 1);
    }
  }

  /** A block keeps its contents under writes that miss it or store the same. */
  lemma {:induction false} ApplyFrame(d: Disk, p: Plan, j: nat, b: nat)
    requires p.Ok() && j <= p.Len() && b < |d|
    requires forall i :: 0 <= i < j && p.At(i).bno == b ==> p.At(i).data == d[b]
    ensures Apply(d, p, j)[b] == d[b]
    decreases j
  {
    if j > 0 { ApplyFrame(d, p, j - 1, b); }
  }

  /** The last write to a block decides its contents. */
  lemma {:induction false} ApplyHit(d: Disk, p: Plan, j: nat, i: nat)
    requires p.Ok() && i < j <= p.Len() && p.At(i).bno < |d|
    requires forall k :: i < k < j ==> p.At(k).bno != p.At(i).bno
    ensures Apply(d, p, j)[p.At(i).bno] == p.At(i).data
    decreases j
  {
    if i < j - 1 { ApplyHit(d, p, j - 1, i); }
  }
}
