/** The in-memory log: reservation of log space by begin_op, absorption in log_write,
    the commit sequence, and recovery, all over the buffer cache. */
module WriteAheadLog {
  import opened Counting
  import opened LogFormat
  import opened BufferCache
  import opened CrashAtomicity
  import opened Reservation
  import opened Types

  /** Nobody holds a block of the log region or one of `blocks`. */
  ghost predicate Quiet(held: set<nat>, L: Layout, blocks: seq<nat>) {
    && (forall b :: b in held ==> !L.InLog(b))
    && (forall t :: 0 <= t < |blocks| ==> blocks[t] !in held)
  }

  lemma {:induction false} NothingHeld(L: Layout, blocks: seq<nat>)
    ensures Quiet({}, L, blocks) && Within(Space([], []))
  {
  }

  /** Pins on the blocks from position `i` on, one each. */
  ghost function Pinned(blocks: seq<nat>, i: nat): (r: multiset<nat>)
    requires i <= |blocks|
    decreases |blocks| - i
  {
    if i == |blocks| then multiset{} else Pinned(blocks, i + 1) + multiset{blocks[i]}
  }

  lemma {:induction false} PinnedHas(blocks: seq<nat>, i: nat, b: nat)
    requires i <= |blocks| && Distinct(blocks)
    ensures Pinned(blocks, i)[b] == if exists k :: i <= k < |blocks| && blocks[k] == b then 1 else 0
    decreases |blocks| - i
  {
    if i < |blocks| { PinnedHas(blocks, i + 1, b); }
  }

  lemma {:induction false} PinnedNothing(blocks: seq<nat>)
    ensures Pinned(blocks, |blocks|) == multiset{}
  {
  }

  lemma {:induction false} PinnedSnoc(blocks: seq<nat>, i: nat, b: nat)
    requires i <= |blocks|
    ensures Pinned(blocks + [b], i) == Pinned(blocks, i) + multiset{b}
    decreases |blocks| - i
  {
    if i < |blocks| {
      PinnedSnoc(blocks, i + 1, b);
    } else {
      assert Pinned(blocks + [b], i + 1) == multiset{};
    }
  }

  /** What one round of write_log or install_trans needs to know of its two blocks. */
  lemma {:induction false} RoundFacts(held: set<nat>, L: Layout, blocks: seq<nat>, i: nat, t: nat, len: nat)
    requires i <= t < |blocks| && LoggableBlocks(blocks, L, len) && L.start + L.size <= len && Quiet(held, L, blocks)
    ensures var b, lb := blocks[t], L.start + t + 1;
            && b < len && lb < len && b != lb && !L.InLog(b) && L.InLog(lb) && b !in held && lb !in held
            && Pinned(blocks, i)[b] == 1 && Pinned(blocks, i)[lb] == 0
  {
    PinnedHas(blocks, i, blocks[t]);
    PinnedHas(blocks, i, L.start + t + 1);
  }

  /** write_log does not change the blocks it reads. */
  lemma {:induction false} LogSource(view: seq<Block>, L: Layout, tx: Tx, t: nat)
    requires TxOk(tx, L, |view|) && t < |tx.blocks|
    ensures Apply(view, LogPlan(L, tx), t)[tx.blocks[t]] == view[tx.blocks[t]]
  {
    ApplyFrame(view, LogPlan(L, tx), t, tx.blocks[t]);
  }

  /** install_trans does not change the log region. */
  lemma {:induction false} InstallSource(d: Disk, L: Layout, tx: Tx, t: nat, b: nat)
    requires TxOk(tx, L, |d|) && t <= |tx.blocks| && b < |d| && L.InLog(b)
    ensures Apply(d, InstallPlan(tx), t)[b] == d[b]
  {
    ApplyFrame(d, InstallPlan(tx), t, b);
  }

  /** Readers of home blocks do not see a commit of what the cache already shows. */
  lemma {:induction false} CommitInvisible(view: seq<Block>, h: Block, L: Layout, tx: Tx, j: nat, v: seq<Block>)
    requires TxOk(tx, L, |view|) && |h.words| == WORDS && 1 <= L.size
    requires forall t :: 0 <= t < |tx.blocks| ==> view[tx.blocks[t]] == tx.data[t]
    requires j <= CommitPlan(h, L, tx).Len() && v == Apply(view, CommitPlan(h, L, tx), j)
    ensures SameHome(v, view, L)
  {
    forall b: nat | b < |view| && !L.InLog(b) ensures v[b] == view[b] {
      ApplyFrame(view, CommitPlan(h, L, tx), j, b);
    }
  }

  /** From the states (disk, view, history) `s0` to `s`, the first `j` writes of plan `p` have happened. */
  ghost predicate Followed(p: Plan, j: nat, s0: (Disk, seq<Block>, Trace), s: (Disk, seq<Block>, Trace)) {
    && p.Ok() && j <= p.Len()
    && s.0 == Apply(s0.0, p, j) && s.1 == Apply(s0.1, p, j) && s.2 == Extend(s0.2, p, j)
  }

  /** One more block write. */
  ghost function Stored(s: (Disk, seq<Block>, Trace), b: nat, x: Block): (r: (Disk, seq<Block>, Trace))
    requires b < |s.0| && b < |s.1|
  {
    (s.0[b := x], s.1[b := x], Then(s.2, Write(b, x)))
  }

  lemma {:induction false} FollowStep(p: Plan, j: nat, s0: (Disk, seq<Block>, Trace), s: (Disk, seq<Block>, Trace),
                                      b: nat, x: Block)
    requires Followed(p, j, s0, s) && j < p.Len() && b < |s.0| && b < |s.1| && p.At(j) == Write(b, x)
    ensures Followed(p, j + 1, s0, Stored(s, b, x))
  {
  }

  /** Following `q` where `p` goes on like `q` from `a` is following `p` further. */
  lemma {:induction false} FollowOn(p: Plan, a: nat, q: Plan, i: nat, s0: (Disk, seq<Block>, Trace),
                                    s1: (Disk, seq<Block>, Trace), s: (Disk, seq<Block>, Trace))
    requires Followed(p, a, s0, s1) && Followed(q, i, s1, s)
    requires a + i <= p.Len() && forall k :: 0 <= k < i ==> p.At(a + k) == q.At(k)
    ensures Followed(p, a + i, s0, s)
  {
    ApplyShift(s0.0, p, a, q, i);
    ApplyShift(s0.1, p, a, q, i);
    ExtendShift(s0.2, p, a, q, i);
  }

  /** Following the install part of a plan of recovery. */
  lemma {:induction false} FollowInstall(h: Block, L: Layout, tx: Tx, i: nat, s0: (Disk, seq<Block>, Trace),
                                         s: (Disk, seq<Block>, Trace))
    requires Followed(InstallPlan(tx), i, s0, s) && |h.words| == WORDS
    ensures Followed(RecoveryPlan(h, L, tx), i, s0, s)
  {
    FollowOn(RecoveryPlan(h, L, tx), 0, InstallPlan(tx), i, s0, s0, s);
  }

  lemma {:induction false} FollowLog(h: Block, L: Layout, tx: Tx, i: nat, s0: (Disk, seq<Block>, Trace),
                                     s: (Disk, seq<Block>, Trace))
    requires Followed(LogPlan(L, tx), i, s0, s) && |h.words| == WORDS && 0 < |tx.blocks|
    ensures Followed(CommitPlan(h, L, tx), i, s0, s)
  {
    FollowOn(CommitPlan(h, L, tx), 0, LogPlan(L, tx), i, s0, s0, s);
  }

  lemma {:induction false} FollowHome(h: Block, L: Layout, tx: Tx, i: nat, s0: (Disk, seq<Block>, Trace),
                                      s1: (Disk, seq<Block>, Trace), s: (Disk, seq<Block>, Trace))
    requires 0 < |tx.blocks| && |h.words| == WORDS && Followed(CommitPlan(h, L, tx), |tx.blocks| + 1, s0, s1)
    requires Followed(RecoveryPlan(PutHead(h, tx.blocks), L, tx), i, s1, s)
    ensures Followed(CommitPlan(h, L, tx), |tx.blocks| + 1 + i, s0, s)
  {
    FollowOn(CommitPlan(h, L, tx), |tx.blocks| + 1, RecoveryPlan(PutHead(h, tx.blocks), L, tx), i, s0, s1, s);
  }

  // ---- Buffers for a commit ----

  /** bread finds a buffer for the header and for the first `n` blocks of the log. */
  ghost predicate LogServed(buf: seq<Buf>, L: Layout, n: nat) {
    Served(buf, L.start, L.start + n)
  }

  ghost predicate Served(buf: seq<Buf>, lo: nat, hi: nat) {
    forall b: nat :: lo <= b <= hi ==> Serves(buf, b)
  }

  /** The first bread of a commit of `n` blocks that finds no buffer comes after `j` block writes;
      the header is read after the blocks of the log. */
  ghost predicate StopsAt(buf: seq<Buf>, L: Layout, n: nat, j: nat) {
    && j <= n && Served(buf, L.start + 1, L.start + j)
    && !Serves(buf, if j == n then L.start else L.start + j + 1)
  }

  lemma {:induction false} IdleServes(buf: seq<Buf>, b: nat)
    requires |buf| > 0 && forall i :: 0 <= i < |buf| ==> buf[i].refcnt == 0
    ensures Serves(buf, b)
  {
    assert 0 in IdleBufs(buf);
  }

  lemma {:induction false} SameIdle(buf: seq<Buf>, buf': seq<Buf>)
    requires Took(buf, buf', {})
    ensures |buf'| == |buf| && forall i :: 0 <= i < |buf| ==> buf'[i].refcnt == buf[i].refcnt
  {
  }

  lemma {:induction false} TookNone(buf: seq<Buf>)
    ensures Took(buf, buf, {})
  {
  }

  lemma {:induction false} TookBoth(buf: seq<Buf>, buf1: seq<Buf>, buf2: seq<Buf>)
    requires Took(buf, buf1, {}) && Took(buf1, buf2, {})
    ensures Took(buf, buf2, {})
  {
  }

  lemma {:induction false} ServedNone(buf: seq<Buf>, b: nat)
    ensures Served(buf, b + 1, b)
  {
  }

  /** One block more, found in buffers that serve the same blocks. */
  lemma {:induction false} ServedNext(buf: seq<Buf>, buf1: seq<Buf>, lo: nat, hi: nat)
    requires Served(buf, lo, hi) && ServesMore(buf, buf1) && ServesMore(buf1, buf)
    ensures Serves(buf1, hi + 1) <==> Serves(buf, hi + 1)
    ensures Serves(buf1, hi + 1) ==> Served(buf, lo, hi + 1)
  {
  }

  lemma {:induction false} ServedIn(buf: seq<Buf>, buf1: seq<Buf>, lo: nat, hi: nat, b: nat)
    requires Served(buf, lo, hi) && ServesMore(buf, buf1) && lo <= b <= hi
    ensures Serves(buf1, b)
  {
  }

  lemma {:induction false} ServedMore(buf: seq<Buf>, buf1: seq<Buf>, lo: nat, hi: nat)
    requires Served(buf, lo, hi) && ServesMore(buf, buf1)
    ensures Served(buf1, lo, hi)
  {
  }

  lemma {:induction false} MoreTwice(buf: seq<Buf>, buf1: seq<Buf>, buf2: seq<Buf>)
    requires ServesMore(buf, buf1) && ServesMore(buf1, buf2)
    ensures ServesMore(buf, buf2)
  {
  }

  /** A commit finds all its buffers, or stops at the first it does not find. */
  lemma {:induction false} AllServed(buf: seq<Buf>, L: Layout, n: nat, j: nat)
    requires Served(buf, L.start + 1, L.start + j) && j <= n
    requires j < n ==> !Serves(buf, L.start + j + 1)
    ensures LogServed(buf, L, n) <==> j == n && Serves(buf, L.start)
    ensures !LogServed(buf, L, n) ==> StopsAt(buf, L, n, j)
  {
  }

  /** References to two buffers are given back, and so is the log's reference to the second. */
  lemma {:induction false} Unpinned(buf: seq<Buf>, pin: seq<nat>, buf1: seq<Buf>, buf2: seq<Buf>, pin2: seq<nat>,
                                    i: nat, j: nat)
    requires Took(buf, buf1, {i, j}) && i < |buf| && j < |buf| && i != j && |buf2| == |buf| == |pin|
    requires pin[j] == 1 && pin2 == pin[j := 0]
    requires forall k :: 0 <= k < |buf| ==>
               && buf2[k].refcnt == buf1[k].refcnt - (if k == j then 2 else if k == i then 1 else 0)
               && HasKey(buf2[k], buf1[k].dev, buf1[k].blockno)
    ensures Kept(buf, pin, buf2, pin2) && ServesMore(buf, buf2)
  {
    hide ServesMore;
    FewerServe(buf, buf2);
  }

  lemma {:induction false} KeptNone(bc: Bcache)
    requires bc.Valid()
    ensures Kept(bc.buf, bc.pin, bc.buf, bc.pin) && ServesMore(bc.buf, bc.buf)
  {
  }

  lemma {:induction false} KeptOn(buf: seq<Buf>, pin: seq<nat>, buf1: seq<Buf>, pin1: seq<nat>, buf2: seq<Buf>)
    requires Kept(buf, pin, buf1, pin1) && Took(buf1, buf2, {})
    ensures Kept(buf, pin, buf2, pin1)
  {
  }

  // ---- The routines of log.c that move blocks, for the first blocks of the log's list ----

  /** One round of write_log: log block `lb` gets the contents of home block `b`. */
  method LogOne(bc: Bcache, lb: nat, b: nat) returns (ok: bool)
    requires bc.Valid() && lb < |bc.disk| && b < |bc.disk| && lb != b
    requires b in bc.pins && b !in bc.held && lb !in bc.held
    modifies bc
    ensures bc.Valid()
    ensures bc.State() == if ok then Stored(old(bc.State()), lb, old(bc.view)[b]) else old(bc.State())
    ensures ok ==> bc.pins == old(bc.pins) && bc.held == old(bc.held)
    ensures ok <==> Serves(old(bc.buf), lb)
    ensures ok ==> bc.pin == old(bc.pin) && Took(old(bc.buf), bc.buf, {})
  {
    hide Shows, Linked, Serves, Took;
    var to, from;
    ok, to, from := bc.BreadTwo(lb, b);
    if !ok { return; }
    ghost var buf1 := bc.buf;
    bc.Fill(to, bc.buf[from].data);
    bc.Bwrite(to);
    bc.BrelseTwo(from, to);
    assert bc.held == old(bc.held);
    GaveBack(old(bc.buf), buf1, bc.buf, {to, from});
  }

  /** write_log: copy the logged blocks from the cache to the log. */
  method WriteLog(bc: Bcache, L: Layout, blocks: seq<nat>, ghost tx: Tx) returns (ok: bool, ghost j: nat)
    requires bc.Valid() && TxOk(tx, L, |bc.disk|) && tx.blocks == blocks && L.start + L.size <= |bc.disk|
    requires bc.pins == Pinned(blocks, 0) && Quiet(bc.held, L, blocks)
    requires forall t :: 0 <= t < |blocks| ==> tx.data[t] == bc.view[blocks[t]]
    modifies bc
    ensures bc.Valid() && j <= |blocks| && (ok ==> j == |blocks|)
    ensures Followed(LogPlan(L, tx), j, old(bc.State()), bc.State())
    ensures ok ==> bc.pins == old(bc.pins) && bc.held == old(bc.held)
    ensures ok ==> bc.pin == old(bc.pin) && Took(old(bc.buf), bc.buf, {})
    ensures Served(old(bc.buf), L.start + 1, L.start + j)
    ensures !ok ==> j < |blocks| && !Serves(old(bc.buf), L.start + j + 1)
  {
    hide Shows, Linked, Serves, Served, Took, ServesMore;
    TookNone(bc.buf);
    ServedNone(bc.buf, L.start);
    var tail := 0;
    while tail < |blocks|
      invariant 0 <= tail <= |blocks| && bc.Valid()
      invariant Followed(LogPlan(L, tx), tail, old(bc.State()), bc.State())
      invariant bc.pins == old(bc.pins) && bc.held == old(bc.held)
      invariant bc.pin == old(bc.pin) && Took(old(bc.buf), bc.buf, {})
      invariant Served(old(bc.buf), L.start + 1, L.start + tail)
    {
      ghost var buf1 := bc.buf;
      SameServes(old(bc.buf), bc.buf);
      ServedNext(old(bc.buf), bc.buf, L.start + 1, L.start + tail);
      RoundFacts(bc.held, L, blocks, 0, tail, |bc.disk|);
      LogSource(old(bc.view), L, tx, tail);
      FollowStep(LogPlan(L, tx), tail, old(bc.State()), bc.State(), L.start + tail + 1, bc.view[blocks[tail]]);
      ok := LogOne(bc, L.start + tail + 1, blocks[tail]);
      if !ok { j := tail; return; }
      TookBoth(old(bc.buf), buf1, bc.buf);
      tail := tail + 1;
    }
    ok, j := true, |blocks|;
  }

  lemma {:induction false} FollowNone(L: Layout, tx: Tx, s: (Disk, seq<Block>, Trace))
    requires TxOk(tx, L, |s.0|)
    ensures Followed(InstallPlan(tx), 0, s, s)
  {
  }

  lemma {:induction false} FollowEmpty(h: Block, L: Layout, tx: Tx, s: (Disk, seq<Block>, Trace))
    requires TxOk(tx, L, |s.0|) && tx.blocks == [] && |h.words| == WORDS
    ensures Followed(CommitPlan(h, L, tx), 0, s, s)
  {
  }

  /** The stores of write_head into the header block. */
  method PutWords(h0: Block, blocks: seq<nat>) returns (h: Block)
    requires |blocks| <= LOGSIZE && |h0.words| == WORDS
    ensures h == PutHead(h0, blocks)
  {
    var ws := h0.words[0 := |blocks|];
    for i := 0 to |blocks|
      invariant |ws| == WORDS
      invariant forall w :: 0 <= w < WORDS ==>
                  ws[w] == if w == 0 then |blocks| else if w <= i then blocks[w - 1] else h0.words[w]
    {
      ws := ws[1 + i := blocks[i]];
    }
    assert ws == PutHead(h0, blocks).words;
    h := Block(ws);
  }

  /** write_head: the list of blocks goes to the header block, the rest of which stays. */
  method WriteHead(bc: Bcache, L: Layout, blocks: seq<nat>) returns (ok: bool)
    requires bc.Valid() && LayoutOk(L, bc.disk) && |blocks| <= LOGSIZE
    requires L.start !in bc.pins && L.start !in bc.held
    modifies bc
    ensures bc.Valid()
    ensures bc.State() == if ok then Stored(old(bc.State()), L.start, PutHead(old(bc.disk)[L.start], blocks))
            else old(bc.State())
    ensures ok ==> bc.pins == old(bc.pins) && bc.held == old(bc.held)
    ensures old(bc.Idle()) ==> ok && bc.Idle()
    ensures ok <==> Serves(old(bc.buf), L.start)
    ensures ok ==> bc.pin == old(bc.pin) && Took(old(bc.buf), bc.buf, {})
  {
    hide Shows, Linked, Serves, Took, Index;
    bc.CleanView(L.start);
    if bc.Idle() { IdleServes(bc.buf, L.start); }
    var hb := bc.Bread(L.start);
    if hb == -1 { return false; }
    ghost var buf1 := bc.buf;
    var h := PutWords(bc.buf[hb].data, blocks);
    bc.Fill(hb, h);
    bc.Bwrite(hb);
    bc.Brelse(hb);
    assert bc.held == old(bc.held);
    GaveBack(old(bc.buf), buf1, bc.buf, {hb});
    SameIdle(old(bc.buf), bc.buf);
    return true;
  }

  /** The copy, the block write and the unpinning of a round of install_trans. */
  method CopyHome(bc: Bcache, lbuf: nat, dbuf: nat, recovering: bool)
    requires bc.Valid() && lbuf < NBUF && dbuf < NBUF && lbuf != dbuf && bc.buf[dbuf].locked
    requires bc.pin[dbuf] == if recovering then 0 else 1
    modifies bc`buf, bc`view, bc`disk, bc`trace, bc`pin, bc`pins
    ensures bc.Valid()
    ensures var b, x, was := old(bc.buf)[dbuf].blockno, old(bc.buf)[lbuf].data, old(bc.buf)[dbuf];
            && b < old(|bc.disk|) && bc.State() == Stored(old(bc.State()), b, x)
            && bc.buf == old(bc.buf)[dbuf := was.(data := x, refcnt := was.refcnt - if recovering then 0 else 1)]
            && bc.pin == old(bc.pin)[dbuf := 0]
            && bc.pins == if recovering then old(bc.pins) else old(bc.pins) - multiset{b}
  {
    hide Shows, Linked;
    BufferShows(bc.buf, bc.pin, bc.disk, bc.view, bc.pins, bc.held, dbuf);
    bc.Fill(dbuf, bc.buf[lbuf].data);
    bc.Bwrite(dbuf);
    if !recovering {
      bc.Bunpin(dbuf);
    }
  }

  /** One round of install_trans: log block `lb` goes to home block `b`. */
  method InstallOne(bc: Bcache, lb: nat, b: nat, recovering: bool) returns (ok: bool)
    requires bc.Valid() && lb < |bc.disk| && b < |bc.disk| && lb != b
    requires lb !in bc.pins && b !in bc.held && lb !in bc.held
    requires bc.pins[b] == if recovering then 0 else 1
    modifies bc
    ensures bc.Valid()
    ensures bc.State() == if ok then Stored(old(bc.State()), b, old(bc.disk)[lb]) else old(bc.State())
    ensures ok ==> bc.pins == (if recovering then old(bc.pins) else old(bc.pins) - multiset{b})
                   && bc.held == old(bc.held)
    ensures recovering && old(bc.Idle()) ==> ok && bc.Idle()
    ensures !recovering ==> (ok <==> Serves(old(bc.buf), lb))
    ensures !recovering && ok ==>
              Kept(old(bc.buf), old(bc.pin), bc.buf, bc.pin) && ServesMore(old(bc.buf), bc.buf)
  {
    hide Shows, Linked, Serves, ServesMore, Took, Kept;
    bc.CleanView(lb);
    var lbuf, dbuf;
    ok, lbuf, dbuf := bc.BreadTwo(lb, b);
    if !ok { return; }
    ghost var buf1 := bc.buf;
    CopyHome(bc, lbuf, dbuf, recovering);
    bc.BrelseTwo(lbuf, dbuf);
    assert bc.held == old(bc.held);
    if !recovering { Unpinned(old(bc.buf), old(bc.pin), buf1, bc.buf, bc.pin, lbuf, dbuf); }
  }

  /** What a round of install_trans needs and does. */
  lemma {:induction false} InstallRound(L: Layout, tx: Tx, t: nat, held: set<nat>, pins: multiset<nat>,
                                        recovering: bool, s0: (Disk, seq<Block>, Trace), s: (Disk, seq<Block>, Trace))
    requires TxOk(tx, L, |s0.0|) && L.start + L.size <= |s0.0| && t < |tx.blocks| && Quiet(held, L, tx.blocks)
    requires Followed(InstallPlan(tx), t, s0, s) && |s.0| == |s.1| == |s0.0|
    requires pins == if recovering then multiset{} else Pinned(tx.blocks, t)
    requires forall k :: 0 <= k < |tx.blocks| ==> s0.0[L.start + 1 + k] == tx.data[k]
    ensures var b, lb := tx.blocks[t], L.start + t + 1;
            && b < |s.0| && lb < |s.0| && b != lb && b !in held && lb !in held
            && lb !in pins && pins[b] == (if recovering then 0 else 1)
            && (if recovering then pins else pins - multiset{b})
               == (if recovering then multiset{} else Pinned(tx.blocks, t + 1))
            && Followed(InstallPlan(tx), t + 1, s0, Stored(s, b, s.0[lb]))
  {
    RoundFacts(held, L, tx.blocks, t, t, |s0.0|);
    InstallSource(s0.0, L, tx, t, L.start + t + 1);
    FollowStep(InstallPlan(tx), t, s0, s, tx.blocks[t], s.0[L.start + t + 1]);
  }

  /** install_trans: copy the log's blocks to their homes. */
  method InstallTrans(bc: Bcache, L: Layout, blocks: seq<nat>, recovering: bool, ghost tx: Tx)
    returns (ok: bool, ghost j: nat)
    requires bc.Valid() && TxOk(tx, L, |bc.disk|) && tx.blocks == blocks && L.start + L.size <= |bc.disk|
    requires bc.pins == (if recovering then multiset{} else Pinned(blocks, 0)) && Quiet(bc.held, L, blocks)
    requires forall t :: 0 <= t < |blocks| ==> bc.disk[L.start + 1 + t] == tx.data[t]
    modifies bc
    ensures bc.Valid() && j <= |blocks| && (ok ==> j == |blocks|)
    ensures Followed(InstallPlan(tx), j, old(bc.State()), bc.State())
    ensures ok ==> bc.pins == multiset{} && bc.held == old(bc.held)
    ensures recovering && old(bc.Idle()) ==> ok && bc.Idle()
    ensures !recovering && LogServed(old(bc.buf), L, |blocks|) ==> ok
    ensures !recovering && ok ==>
              Kept(old(bc.buf), old(bc.pin), bc.buf, bc.pin) && ServesMore(old(bc.buf), bc.buf)
  {
    hide Linked, Shows, Followed, TxOk, Quiet, Serves, ServesMore, Served, Kept, Pinned;
    KeptNone(bc);
    PinnedNothing(blocks);
    ghost var all := LogServed(bc.buf, L, |blocks|);
    assert Followed(InstallPlan(tx), 0, bc.State(), bc.State()) by { FollowNone(L, tx, bc.State()); }
    var tail := 0;
    while tail < |blocks|
      invariant 0 <= tail <= |blocks| && bc.Valid() && bc.held == old(bc.held) && |bc.disk| == old(|bc.disk|)
      invariant Followed(InstallPlan(tx), tail, old(bc.State()), bc.State())
      invariant bc.pins == if recovering then multiset{} else Pinned(blocks, tail)
      invariant recovering && old(bc.Idle()) ==> bc.Idle()
      invariant !recovering ==> Kept(old(bc.buf), old(bc.pin), bc.buf, bc.pin) && ServesMore(old(bc.buf), bc.buf)
    {
      ghost var buf1, pin1 := bc.buf, bc.pin;
      if !recovering && all { ServedIn(old(bc.buf), buf1, L.start, L.start + |blocks|, L.start + tail + 1); }
      InstallRound(L, tx, tail, bc.held, bc.pins, recovering, old(bc.State()), bc.State());
      ok := InstallOne(bc, L.start + tail + 1, blocks[tail], recovering);
      if !ok { j := tail; return; }
      if !recovering {
        KeptTwice(old(bc.buf), old(bc.pin), buf1, pin1, bc.buf, bc.pin);
        MoreTwice(old(bc.buf), buf1, bc.buf);
      }
      tail := tail + 1;
    }
    ok, j := true, |blocks|;
  }

  /** What commit does after the commit point, and what recovery does: the log's blocks go
      home and the log is erased. */
  method InstallAndErase(bc: Bcache, L: Layout, blocks: seq<nat>, recovering: bool, ghost tx: Tx)
    returns (ok: bool, ghost i: nat)
    requires bc.Valid() && TxOk(tx, L, |bc.disk|) && tx.blocks == blocks && LayoutOk(L, bc.disk)
    requires bc.pins == (if recovering then multiset{} else Pinned(blocks, 0)) && Quiet(bc.held, L, blocks)
    requires forall t :: 0 <= t < |blocks| ==> bc.disk[L.start + 1 + t] == tx.data[t]
    modifies bc
    ensures bc.Valid() && i <= |blocks| + 1 && (ok ==> i == |blocks| + 1)
    ensures Followed(RecoveryPlan(old(bc.disk)[L.start], L, tx), i, old(bc.State()), bc.State())
    ensures ok ==> bc.pins == multiset{} && bc.held == old(bc.held)
    ensures recovering && old(bc.Idle()) ==> ok
    ensures !recovering && LogServed(old(bc.buf), L, |blocks|) ==> ok
    ensures !recovering && ok ==> Kept(old(bc.buf), old(bc.pin), bc.buf, bc.pin)
  {
    hide Serves, ServesMore, Served, Kept, Took;
    ghost var h, all := bc.disk[L.start], LogServed(bc.buf, L, |blocks|);
    ok, i := InstallTrans(bc, L, blocks, recovering, tx);
    ghost var buf1, pin1 := bc.buf, bc.pin;
    if !recovering && ok && all { ServedIn(old(bc.buf), buf1, L.start, L.start + |blocks|, L.start); }
    FollowInstall(h, L, tx, i, old(bc.State()), bc.State());
    if !ok { return; }
    InstallSource(old(bc.disk), L, tx, |blocks|, L.start);
    FollowStep(RecoveryPlan(h, L, tx), i, old(bc.State()), bc.State(), L.start, PutHead(h, []));
    ok := WriteHead(bc, L, []);
    if !ok { return; }
    i := |blocks| + 1;
    if !recovering { KeptOn(old(bc.buf), old(bc.pin), buf1, pin1, bc.buf); }
  }

  /** The first half of commit: the transaction goes to the log and becomes committed. */
  method CommitToLog(bc: Bcache, L: Layout, blocks: seq<nat>, ghost tx: Tx) returns (ok: bool, ghost j: nat)
    requires bc.Valid() && TxOk(tx, L, |bc.disk|) && tx.blocks == blocks && |blocks| > 0 && LayoutOk(L, bc.disk)
    requires bc.pins == Pinned(blocks, 0) && Quiet(bc.held, L, blocks)
    requires forall t :: 0 <= t < |blocks| ==> tx.data[t] == bc.view[blocks[t]]
    modifies bc
    ensures bc.Valid() && j <= |blocks| + 1 && (ok ==> j == |blocks| + 1)
    ensures Followed(CommitPlan(old(bc.disk)[L.start], L, tx), j, old(bc.State()), bc.State())
    ensures ok ==> bc.pins == old(bc.pins) && bc.held == old(bc.held)
    ensures |bc.disk| == old(|bc.disk|)
    ensures ok ==> LayoutOk(L, bc.disk) && bc.disk[L.start] == PutHead(old(bc.disk)[L.start], blocks)
    ensures ok ==> forall t :: 0 <= t < |blocks| ==> bc.disk[L.start + 1 + t] == tx.data[t]
    ensures ok <==> LogServed(old(bc.buf), L, |blocks|)
    ensures !ok ==> StopsAt(old(bc.buf), L, |blocks|, j)
    ensures ok ==> bc.pin == old(bc.pin) && Took(old(bc.buf), bc.buf, {})
  {
    hide Shows, Linked, Serves, Served, Took, StopsAt, LogServed;
    ghost var h := bc.disk[L.start];
    ok, j := WriteLog(bc, L, blocks, tx);
    AllServed(old(bc.buf), L, |blocks|, j);
    ghost var buf1 := bc.buf;
    if ok { SameServes(old(bc.buf), buf1); }
    FollowLog(h, L, tx, j, old(bc.State()), bc.State());
    if !ok { return; }
    LogWritten(old(bc.disk), L, tx, |blocks|);
    PinnedHas(blocks, 0, L.start);
    FollowStep(CommitPlan(h, L, tx), j, old(bc.State()), bc.State(), L.start, PutHead(h, blocks));
    ok := WriteHead(bc, L, blocks);
    if !ok { return; }
    TookBoth(old(bc.buf), buf1, bc.buf);
    j := |blocks| + 1;
  }

  /** commit: the block writes. */
  method CommitWrites(bc: Bcache, L: Layout, blocks: seq<nat>, ghost tx: Tx) returns (ok: bool, ghost j: nat)
    requires bc.Valid() && TxOk(tx, L, |bc.disk|) && tx.blocks == blocks && LayoutOk(L, bc.disk)
    requires bc.pins == Pinned(blocks, 0) && Quiet(bc.held, L, blocks)
    requires forall t :: 0 <= t < |blocks| ==> tx.data[t] == bc.view[blocks[t]]
    modifies bc
    ensures bc.Valid() && Followed(CommitPlan(old(bc.disk)[L.start], L, tx), j, old(bc.State()), bc.State())
    ensures ok ==> j == CommitPlan(old(bc.disk)[L.start], L, tx).Len()
    ensures ok ==> bc.pins == multiset{} && bc.held == old(bc.held)
    ensures ok <==> |blocks| == 0 || LogServed(old(bc.buf), L, |blocks|)
    ensures !ok ==> StopsAt(old(bc.buf), L, |blocks|, j)
    ensures ok ==> Kept(old(bc.buf), old(bc.pin), bc.buf, bc.pin)
  {
    hide Shows, Linked, Followed, Served, Serves, StopsAt, Kept, Took;
    KeptNone(bc);
    if |blocks| == 0 {
      FollowEmpty(bc.disk[L.start], L, tx, bc.State());
      return true, 0;
    }
    ok, j := CommitToLog(bc, L, blocks, tx);
    if !ok { return; }
    ghost var s1, buf1, pin1 := bc.State(), bc.buf, bc.pin;
    SameServes(old(bc.buf), bc.buf);
    KeptOn(old(bc.buf), old(bc.pin), old(bc.buf), old(bc.pin), bc.buf);
    ServedMore(old(bc.buf), bc.buf, L.start, L.start + |blocks|);
    ghost var i;
    ok, i := InstallAndErase(bc, L, blocks, false, tx);
    FollowHome(old(bc.disk)[L.start], L, tx, i, old(bc.State()), s1, bc.State());
    j := |blocks| + 1 + i;
    KeptTwice(old(bc.buf), old(bc.pin), buf1, pin1, bc.buf, bc.pin);
  }

  lemma {:induction false} AddLoggable(blocks: seq<nat>, b: nat, L: Layout, len: nat)
    requires LoggableBlocks(blocks, L, len) && |blocks| < LOGSIZE && |blocks| < L.size - 1
    requires b !in blocks && b < len && !L.InLog(b)
    ensures LoggableBlocks(blocks + [b], L, len)
  {
  }

  class Log {
    const bc: Bcache
    const L: Layout
    var outstanding: nat
    var committing: bool
    var n: nat
    var block: seq<nat>
    ghost var used: seq<nat>  // log blocks that each outstanding operation has added

    ghost predicate Sane()
      reads this, bc
    {
      && bc.Valid() && LayoutOk(L, bc.disk)
      && |block| == LOGSIZE && n <= LOGSIZE
      && LoggableBlocks(block[..n], L, |bc.disk|)
    }

    ghost predicate Reserved()
      reads this
    {
      n <= |block| && |used| == outstanding && Within(Space(block[..n], used))
    }

    /** Between commits. */
    ghost predicate Valid()
      reads this, bc
    {
      && Sane() && Reserved() && !committing
      && LogClear(bc.disk, L)
      && bc.pins == Pinned(block[..n], 0)
      && Quiet(bc.held, L, [])
    }

    /** The open transaction: the logged blocks with their contents as the cache has them. */
    ghost function Pending(): (tx: Tx)
      requires Sane()
      reads this, bc
      ensures TxOk(tx, L, |bc.disk|) && tx.blocks == block[..n]
      ensures forall t :: 0 <= t < n ==> tx.data[t] == bc.view[block[t]]
    {
      var bs, view := block[..n], bc.view;
      Tx(bs, seq(|bs|, t requires 0 <= t < |bs| => view[bs[t]]))
    }

    /** One pass of the loop of begin_op; false is a branch that sleeps, for a commit that is
        under way or for log space. */
    method BeginOp() returns (ok: bool)
      requires Reserved()
      modifies this`outstanding, this`used
      ensures Reserved() && (old(Valid()) ==> Valid())
      ensures ok <==> !committing && n + (old(outstanding) + 1) * MAXOPBLOCKS <= LOGSIZE
      ensures outstanding == old(outstanding) + if ok then 1 else 0
      ensures used == if ok then old(used) + [0] else old(used)
    {
      if committing {
        return false;
      }
      if n + (outstanding + 1) * MAXOPBLOCKS > LOGSIZE {
        return false;
      }
      hide Unused;
      BeginWithin(Space(block[..n], used));
      outstanding := outstanding + 1;
      used := used + [0];
      return true;
    }

    /** log_write of a held buffer by outstanding operation `op`; false is a panic.  An
        operation that has budget left never meets the panic on a large enough log. */
    method LogWrite(i: nat, ghost op: nat) returns (ok: bool)
      requires Valid() && i < NBUF && bc.buf[i].locked && !L.InLog(bc.buf[i].blockno)
      requires outstanding >= 1 ==> op < |used|
      requires outstanding >= 1 ==> bc.buf[i].blockno in block[..n] || used[op] < MAXOPBLOCKS
      modifies this`n, this`block, this`used, bc`buf, bc`pin, bc`pins
      ensures ok <==> old(n) < LOGSIZE && old(n) < L.size - 1 && old(outstanding) >= 1
      ensures old(outstanding) >= 1 && L.size - 1 >= LOGSIZE && old(used)[op] < MAXOPBLOCKS ==> ok
      ensures Valid()
      ensures !ok ==> block == old(block) && n == old(n) && used == old(used) && bc.buf == old(bc.buf)
                      && bc.pin == old(bc.pin)
      ensures ok && bc.buf[i].blockno in old(block[..n]) ==>
                block == old(block) && n == old(n) && used == old(used) && bc.buf == old(bc.buf)
                  && bc.pin == old(bc.pin)
      ensures ok && bc.buf[i].blockno !in old(block[..n]) ==>
                && block[..n] == old(block[..n]) + [bc.buf[i].blockno]
                && used == old(used)[op := old(used)[op] + 1]
                && bc.buf == old(bc.buf)[i := old(bc.buf)[i].(refcnt := old(bc.buf)[i].refcnt + 1)]
                && |old(bc.pin)| == NBUF && bc.pin == old(bc.pin)[i := old(bc.pin)[i] + 1]
    {
      if n >= LOGSIZE || n >= L.size - 1 {
        return false;
      }
      if outstanding < 1 {
        return false;
      }
      var b := bc.buf[i].blockno;
      var k := Find(b);
      if k < n {
        block := block[k := b];
        assert block == old(block);
        return true;
      }
      Add(i, b, op);
      return true;
    }

    /** The search loop of log_write. */
    method Find(b: nat) returns (k: nat)
      requires n <= |block|
      ensures k <= n && (k < n <==> b in block[..n]) && (k < n ==> block[k] == b)
    {
      k := 0;
      while k < n && block[k] != b
        invariant 0 <= k <= n
        invariant forall j :: 0 <= j < k ==> block[j] != b
      {
        k := k + 1;
      }
      if k < n { assert block[..n][k] == b; }
    }

    /** The branch of log_write that adds a block to the log. */
    method Add(i: nat, b: nat, ghost op: nat)
      requires Valid() && i < NBUF && bc.buf[i].locked && bc.buf[i].blockno == b && !L.InLog(b)
      requires n < LOGSIZE && n < L.size - 1 && b !in block[..n] && op < |used| && used[op] < MAXOPBLOCKS
      modifies this`n, this`block, this`used, bc`buf, bc`pin, bc`pins
      ensures Valid()
      ensures block[..n] == old(block[..n]) + [b] && used == old(used)[op := old(used)[op] + 1]
      ensures bc.buf == old(bc.buf)[i := old(bc.buf)[i].(refcnt := old(bc.buf)[i].refcnt + 1)]
      ensures |old(bc.pin)| == NBUF && bc.pin == old(bc.pin)[i := old(bc.pin)[i] + 1]
    {
      hide Shows, Linked, Within, LoggableBlocks, Pinned;
      BufferShows(bc.buf, bc.pin, bc.disk, bc.view, bc.pins, bc.held, i);
      HeldShows(bc.buf, bc.pin, bc.disk, bc.view, bc.pins, bc.held, i);
      bc.Bpin(i);
      block := block[n := b];
      PinnedSnoc(old(block[..n]), 0, b);
      n := n + 1;
      assert block[..n] == old(block[..n]) + [b];
      AddLoggable(old(block[..n]), b, L, |bc.disk|);
      AddWithin(Space(old(block[..n]), used), op, b);
      used := used[op := used[op] + 1];
    }

    /** end_op of operation `op`.  The last one commits; false is a panic. */
    method EndOp(ghost op: nat) returns (ok: bool, ghost j: nat)
      requires Valid() && op < |used|
      requires outstanding == 1 ==> Quiet(bc.held, L, block[..n])
      modifies this, bc
      ensures ok ==> Valid() && outstanding == old(outstanding) - 1 && used == Without(old(used), op)
      ensures ok ==> bc.held == old(bc.held)
      ensures SameHome(bc.view, old(bc.view), L)
      ensures old(outstanding) > 1 ==> ok && n == old(n) && block == old(block) && bc.State() == old(bc.State())
      ensures old(outstanding) == 1 ==>
                Followed(CommitPlan(old(bc.disk)[L.start], L, old(Pending())), j, old(bc.State()), bc.State())
      ensures old(outstanding) == 1 && ok ==> n == 0 && SameHome(bc.disk, After(old(bc.disk), old(Pending())), L)
      ensures old(outstanding) == 1 && ok ==> j == CommitPlan(old(bc.disk)[L.start], L, old(Pending())).Len()
      ensures old(outstanding) == 1 ==> (ok <==> old(n) == 0 || LogServed(old(bc.buf), L, old(n)))
      ensures !ok ==> StopsAt(old(bc.buf), L, old(n), j)
      ensures ok ==> Kept(old(bc.buf), old(bc.pin), bc.buf, bc.pin)
    {
      hide Shows, Linked, Within, LoggableBlocks, LogServed, StopsAt, Kept;
      KeptNone(bc);
      EndWithin(Space(block[..n], used), op);
      used := Without(used, op);
      outstanding := outstanding - 1;
      ok, j := true, 0;
      if outstanding == 0 {
        committing := true;
        ok, j := Commit(old(Pending()));
        if !ok { return; }
        committing := false;
      }
    }

    /** commit.  Its block writes are a first part of CommitPlan, all of it unless the cache
        runs out of buffers; what readers of home blocks see does not change. */
    method Commit(ghost tx: Tx) returns (ok: bool, ghost j: nat)
      requires Sane() && LogClear(bc.disk, L) && Reserved() && outstanding == 0 && tx == Pending()
      requires bc.pins == Pinned(block[..n], 0) && Quiet(bc.held, L, block[..n])
      modifies this`n, bc
      ensures bc.Valid() && SameHome(bc.view, old(bc.view), L)
      ensures Followed(CommitPlan(old(bc.disk)[L.start], L, tx), j, old(bc.State()), bc.State())
      ensures ok ==> j == CommitPlan(old(bc.disk)[L.start], L, tx).Len()
      ensures ok ==> n == 0 && Sane() && Reserved() && LogClear(bc.disk, L)
      ensures ok ==> bc.pins == multiset{} && bc.held == old(bc.held)
      ensures ok ==> SameHome(bc.disk, After(old(bc.disk), tx), L)
      ensures ok <==> old(n) == 0 || LogServed(old(bc.buf), L, old(n))
      ensures !ok ==> StopsAt(old(bc.buf), L, old(n), j)
      ensures ok ==> Kept(old(bc.buf), old(bc.pin), bc.buf, bc.pin)
    {
      hide Shows, Linked, LogServed, StopsAt, Kept;
      ok, j := CommitWrites(bc, L, block[..n], tx);
      CommitInvisible(old(bc.view), old(bc.disk)[L.start], L, tx, j, bc.view);
      if ok {
        n := 0;
        CommitDone(old(bc.disk), L, tx);
        assert block[..n] == [];
      }
    }

    /** initlog over a cache nobody uses yet: recovery performs the whole of its plan and
        cannot run out of buffers. */
    constructor (bc: Bcache, L: Layout)
      requires bc.Valid() && HeadOk(bc.disk, L)
      requires bc.Idle() && bc.pins == multiset{} && bc.held == {}
      modifies bc
      ensures this.bc == bc && this.L == L && Valid() && n == 0 && outstanding == 0
      ensures bc.disk == Recovered(old(bc.disk), L)
      ensures bc.trace == Extend(old(bc.trace), Recovery(old(bc.disk), L), Recovery(old(bc.disk), L).Len())
    {
      this.bc := bc;
      this.L := L;
      outstanding, committing, n := 0, false, 0;
      block := seq(LOGSIZE, _ => 0);
      used := [];
      new;
      RecoverFromLog();
    }

    method RecoverFromLog()
      requires bc.Valid() && HeadOk(bc.disk, L) && |block| == LOGSIZE
      requires outstanding == 0 && used == [] && !committing
      requires bc.Idle() && bc.pins == multiset{} && bc.held == {}
      modifies this`n, this`block, bc
      ensures Valid() && n == 0
      ensures bc.disk == Recovered(old(bc.disk), L)
      ensures bc.trace == Extend(old(bc.trace), Recovery(old(bc.disk), L), Recovery(old(bc.disk), L).Len())
    {
      hide Shows, Linked, Apply, Extend, After, SameHome, Within, Quiet;
      ReadHead();
      NothingHeld(L, block[..n]);
      var ok, i := InstallAndErase(bc, L, block[..n], true, DiskTx(old(bc.disk), L));
      RecoveredIs(old(bc.disk), L);
      n := 0;
      assert block[..n] == [];
      NothingHeld(L, []);
    }

    /** read_head. */
    method ReadHead()
      requires bc.Valid() && HeadOk(bc.disk, L) && |block| == LOGSIZE
      requires bc.Idle() && bc.pins == multiset{} && bc.held == {}
      modifies this`n, this`block, bc
      ensures Sane() && bc.State() == old(bc.State())
      ensures block[..n] == HeadBlocks(bc.disk[L.start])
      ensures bc.Idle() && bc.pins == old(bc.pins) && bc.held == {}
    {
      hide Shows, Linked;
      bc.CleanView(L.start);
      assert bc.buf[0].refcnt == 0;
      var buf := bc.Bread(L.start);
      var h := bc.buf[buf].data;
      n := h.words[0];
      for i := 0 to n
        invariant |block| == LOGSIZE && n == h.words[0]
        invariant block[..i] == HeadBlocks(h)[..i]
        modifies this`block
      {
        block := block[i := h.words[1 + i]];
        assert block[..i + 1] == block[..i] + [h.words[1 + i]];
      }
      bc.Brelse(buf);
    }
  }
}
