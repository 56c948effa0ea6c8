/** Files over the log and the buffer cache: the blocks that a chunk of filewrite changes go
    through log_write, and end_op commits them. */
module FileTransaction {
  import opened Types
  import opened Counting
  import opened FileModel
  import opened FileLog
  import opened FileOps
  import opened CrashAtomicity
  import opened FileCrash
  import BC = BufferCache
  import WAL = WriteAheadLog
  import Log = LogFormat
  import Reservation

  /** What changes is stored into the block of a held buffer, and the block is logged and
      released. */
  method PutAndLog(lg: WAL.Log, i: nat, sb: Super, f: Fs)
    requires lg.Valid() && lg.outstanding == 1 && lg.used[0] < MAXOPBLOCKS && i < BC.NBUF && lg.bc.buf[i].locked
    requires lg.n < Log.LOGSIZE && lg.n < lg.L.size - 1 && lg.n <= |lg.block|
    requires var b := lg.bc.buf[i].blockno;
             && b !in lg.block[..lg.n] && b < |lg.bc.view| && !lg.L.InLog(b) && |lg.bc.view[b].words| == 256
             && lg.bc.buf[i].data == lg.bc.view[b]
    modifies lg`n, lg`block, lg`used, lg.bc
    ensures lg.Valid() && lg.bc.disk == old(lg.bc.disk) && lg.bc.trace == old(lg.bc.trace)
    ensures var b, was := old(lg.bc.buf)[i].blockno, old(lg.bc.buf)[i];
            && lg.bc.view == old(lg.bc.view)[b := Encoded(old(lg.bc.view)[b], sb, f, b)]
            && lg.bc.held == old(lg.bc.held) - {b}
            && lg.block[..lg.n] == old(lg.block[..lg.n]) + [b] && lg.used == old(lg.used)[0 := old(lg.used)[0] + 1]
            && lg.bc.buf == old(lg.bc.buf)[i := was.(data := Encoded(old(lg.bc.view)[b], sb, f, b), locked := false)]
            && |old(lg.bc.pin)| == BC.NBUF && lg.bc.pin == old(lg.bc.pin)[i := old(lg.bc.pin)[i] + 1]
  {
    hide BC.Shows, BC.Linked, Encoded, Reservation.Within, Log.LoggableBlocks;
    BC.BufferShows(lg.bc.buf, lg.bc.pin, lg.bc.disk, lg.bc.view, lg.bc.pins, lg.bc.held, i);
    var b := lg.bc.buf[i].blockno;
    var x := Encoded(lg.bc.buf[i].data, sb, f, b);
    lg.bc.Fill(i, x);
    var ok := lg.LogWrite(i, 0);
    PinnedBlock(lg, b);
    BC.HeldShows(lg.bc.buf, lg.bc.pin, lg.bc.disk, lg.bc.view, lg.bc.pins, lg.bc.held, i);
    lg.bc.Brelse(i);
  }

  /** One block: it is read, what changes is stored into it, and it is logged.  False is the
      panic for want of buffers. */
  method Update(lg: WAL.Log, b: nat, sb: Super, f: Fs) returns (ok: bool)
    requires lg.Valid() && lg.outstanding == 1 && lg.used[0] < MAXOPBLOCKS
    requires lg.n < Log.LOGSIZE && lg.n < lg.L.size - 1 && lg.n <= |lg.block| && b !in lg.block[..lg.n]
    requires b < |lg.bc.view| && !lg.L.InLog(b) && b !in lg.bc.held && |lg.bc.view[b].words| == 256
    modifies lg`n, lg`block, lg`used, lg.bc
    ensures lg.Valid() && lg.bc.disk == old(lg.bc.disk) && lg.bc.trace == old(lg.bc.trace)
    ensures ok ==>
      && lg.bc.view == old(lg.bc.view)[b := Encoded(old(lg.bc.view)[b], sb, f, b)] && lg.bc.held == old(lg.bc.held)
      && lg.block[..lg.n] == old(lg.block[..lg.n]) + [b] && lg.used == old(lg.used)[0 := old(lg.used)[0] + 1]
    ensures ok <==> BC.Serves(old(lg.bc.buf), b)
    ensures ok ==> Pinning(old(lg.bc.buf), old(lg.bc.pin), lg.bc.buf, lg.bc.pin, b)
  {
    hide BC.Shows, BC.Linked, Encoded, Reservation.Within, Log.LoggableBlocks, BC.Serves, Pinning, BC.Took;
    BC.BufferShows(lg.bc.buf, lg.bc.pin, lg.bc.disk, lg.bc.view, lg.bc.pins, lg.bc.held, 0);
    var i := lg.bc.Bread(b);
    if i == -1 { return false; }
    ghost var buf1 := lg.bc.buf;
    PutAndLog(lg, i, sb, f);
    BC.KeysOf(lg.bc.buf, lg.bc.pin, lg.bc.disk, lg.bc.view, lg.bc.pins, lg.bc.held);
    PinningIs(old(lg.bc.buf), old(lg.bc.pin), buf1, lg.bc.buf, lg.bc.pin, b, i);
    return true;
  }

  // ---- Buffers for a transaction ----

  /** Block `b` has been read and pinned: it is in a referenced buffer now, an idle one unless it
      was in a referenced one before. */
  ghost predicate Pinning(buf: seq<BC.Buf>, pin: seq<nat>, buf': seq<BC.Buf>, pin': seq<nat>, b: nat) {
    && BC.Kept(buf, pin, buf', pin')
    && (forall x: nat :: BC.Busy(buf', x) <==> BC.Busy(buf, x) || x == b)
    && |BC.IdleBufs(buf')| == |BC.IdleBufs(buf)| - if BC.Busy(buf, b) then 0 else 1
  }

  lemma {:induction false} PinningIs(buf: seq<BC.Buf>, pin: seq<nat>, buf1: seq<BC.Buf>,
                                     buf2: seq<BC.Buf>, pin2: seq<nat>, b: nat, i: nat)
    requires BC.Took(buf, buf1, {i}) && i < |buf| == |pin| && pin2 == pin[i := pin[i] + 1]
    requires BC.HasKey(buf1[i], BC.ROOTDEV, b) && BC.UniqueKeys(buf2) && |buf2| == |buf1|
    requires forall k :: 0 <= k < |buf1| ==> BC.HasKey(buf2[k], buf1[k].dev, buf1[k].blockno)
    requires forall k :: 0 <= k < |buf1| ==> buf2[k].refcnt == buf1[k].refcnt
    ensures Pinning(buf, pin, buf2, pin2, b)
  {
    BC.TookOne(buf, buf2, i, b);
  }

  /** The blocks that are in no referenced buffer. */
  ghost function Missing(buf: seq<BC.Buf>, bs: set<nat>): set<nat> {
    set b | b in bs && !BC.Busy(buf, b)
  }

  /** All of `bs` have been read and pinned. */
  ghost predicate PinnedAll(buf: seq<BC.Buf>, pin: seq<nat>, buf': seq<BC.Buf>, pin': seq<nat>, bs: set<nat>) {
    && BC.Kept(buf, pin, buf', pin')
    && (forall x: nat :: BC.Busy(buf', x) <==> BC.Busy(buf, x) || x in bs)
    && |BC.IdleBufs(buf')| + |Missing(buf, bs)| == |BC.IdleBufs(buf)|
  }

  lemma {:induction false} PinnedNone(buf: seq<BC.Buf>, pin: seq<nat>, bs: set<nat>)
    requires BC.Kept(buf, pin, buf, pin)
    ensures PinnedAll(buf, pin, buf, pin, bs - bs)
  {
    assert Missing(buf, bs - bs) == {};
  }

  lemma {:induction false} PinnedNext(buf: seq<BC.Buf>, pin: seq<nat>, buf1: seq<BC.Buf>, pin1: seq<nat>,
                                      buf2: seq<BC.Buf>, pin2: seq<nat>, logged: set<nat>, todo: set<nat>, b: nat)
    requires PinnedAll(buf, pin, buf1, pin1, logged - todo) && Pinning(buf1, pin1, buf2, pin2, b)
    requires b in todo && todo <= logged
    ensures PinnedAll(buf, pin, buf2, pin2, logged - (todo - {b}))
  {
    hide BC.Busy, BC.IdleBufs, BC.Kept;
    BC.KeptTwice(buf, pin, buf1, pin1, buf2, pin2);
    var was, now := Missing(buf, logged - todo), Missing(buf, logged - (todo - {b}));
    assert logged - (todo - {b}) == logged - todo + {b};
    assert now == if BC.Busy(buf, b) then was else was + {b};
    assert b !in was;
  }

  /** No buffer for block `b`: there are more missing blocks than idle buffers. */
  lemma {:induction false} PinnedStops(buf: seq<BC.Buf>, pin: seq<nat>, buf1: seq<BC.Buf>, pin1: seq<nat>,
                                       logged: set<nat>, todo: set<nat>, b: nat)
    requires PinnedAll(buf, pin, buf1, pin1, logged - todo) && !BC.Serves(buf1, b) && b in todo && todo <= logged
    ensures |Missing(buf, logged)| > |BC.IdleBufs(buf)|
  {
    hide BC.Busy, BC.IdleBufs, BC.Kept;
    var was := Missing(buf, logged - todo);
    assert was + {b} <= Missing(buf, logged) && b !in was;
    CardMono(was + {b}, Missing(buf, logged));
  }

  lemma {:induction false} PinnedCount(buf: seq<BC.Buf>, pin: seq<nat>, buf': seq<BC.Buf>, pin': seq<nat>, bs: set<nat>)
    requires PinnedAll(buf, pin, buf', pin', bs)
    ensures |Missing(buf, bs)| <= |BC.IdleBufs(buf)|
  {
  }

  lemma {:induction false} PinnedBlock(lg: WAL.Log, b: nat)
    requires lg.Valid() && lg.n <= |lg.block| && b in lg.block[..lg.n]
    ensures lg.bc.pins[b] == 1
  {
    WAL.PinnedHas(lg.block[..lg.n], 0, b);
  }

  /** The blocks of `bs`, and no others, hold what they are to hold for the file system `f`. */
  ghost predicate Patched(view: seq<Log.Block>, view': seq<Log.Block>, sb: Super, f: Fs, bs: seq<nat>) {
    && |view'| == |view|
    && forall b: nat :: b < |view| ==> PatchedAt(view, view', sb, f, bs, b)
  }

  ghost predicate PatchedAt(view: seq<Log.Block>, view': seq<Log.Block>, sb: Super, f: Fs, bs: seq<nat>, b: nat)
    requires b < |view| == |view'|
  {
    if b in bs then |view[b].words| == 256 && view'[b] == Encoded(view[b], sb, f, b) else view'[b] == view[b]
  }

  lemma {:induction false} PatchedMore(view: seq<Log.Block>, view': seq<Log.Block>, sb: Super, f: Fs, bs: seq<nat>,
                                       b: nat)
    requires Patched(view, view', sb, f, bs) && b < |view| && b !in bs && |view[b].words| == 256
    ensures view'[b] == view[b] && Patched(view, view'[b := Encoded(view[b], sb, f, b)], sb, f, bs + [b])
  {
    hide Encoded;
    assert PatchedAt(view, view', sb, f, bs, b);
    var view2 := view'[b := Encoded(view[b], sb, f, b)];
    forall x: nat | x < |view| ensures PatchedAt(view, view2, sb, f, bs + [b], x) {
      assert PatchedAt(view, view', sb, f, bs, x);
    }
  }

  /** The blocks can be logged. */
  ghost predicate Homes(view: seq<Log.Block>, L: Log.Layout, logged: set<nat>) {
    |logged| <= MAXOPBLOCKS < L.size && forall b :: b in logged ==> b < |view| && !L.InLog(b) && |view[b].words| == 256
  }

  /** The order in which the blocks have been logged. */
  ghost predicate Order(bs: seq<nat>, todo: set<nat>, logged: set<nat>) {
    && Distinct(bs) && |bs| + |todo| == |logged| && todo <= logged
    && (forall b :: b in bs ==> b in logged) && (forall b :: b in logged ==> b in bs || b in todo)
    && (forall b :: b in bs ==> b !in todo)
  }

  lemma {:induction false} OrderMore(bs: seq<nat>, todo: set<nat>, logged: set<nat>, b: nat)
    requires Order(bs, todo, logged) && b in todo
    ensures Order(bs + [b], todo - {b}, logged) && b !in bs && b in logged && |bs| < |logged|
  {
  }

  /** All blocks of a transaction of one operation. */
  method StoreAll(lg: WAL.Log, sb: Super, f: Fs, logged: set<nat>) returns (ok: bool, ghost bs: seq<nat>)
    requires lg.Valid() && lg.outstanding == 1 && lg.used == [0] && lg.n == 0 && lg.bc.held == {}
    requires Homes(lg.bc.view, lg.L, logged)
    modifies lg`n, lg`block, lg`used, lg.bc
    ensures lg.Valid() && lg.bc.disk == old(lg.bc.disk) && lg.bc.trace == old(lg.bc.trace)
    ensures ok ==>
      && lg.bc.held == {} && lg.block[..lg.n] == bs && Order(bs, {}, logged)
      && Patched(old(lg.bc.view), lg.bc.view, sb, f, bs)
    ensures ok <==> |Missing(old(lg.bc.buf), logged)| <= |BC.IdleBufs(old(lg.bc.buf))|
    ensures ok ==> PinnedAll(old(lg.bc.buf), old(lg.bc.pin), lg.bc.buf, lg.bc.pin, logged)
  {
    hide BC.Shows, BC.Linked, Encoded, Reservation.Within, Log.LoggableBlocks, Patched, Order, BC.Serves, Pinning,
         PinnedAll, Missing;
    var todo := logged;
    bs := [];
    StartOrder(old(lg.bc.view), sb, f, logged);
    WAL.KeptNone(lg.bc);
    PinnedNone(lg.bc.buf, lg.bc.pin, logged);
    assert lg.block[..lg.n] == bs;
    while todo != {}
      invariant lg.Valid() && lg.bc.disk == old(lg.bc.disk) && lg.bc.trace == old(lg.bc.trace)
      invariant lg.outstanding == 1 && lg.used == [|bs|] && lg.bc.held == {} && lg.block[..lg.n] == bs
      invariant Order(bs, todo, logged) && Patched(old(lg.bc.view), lg.bc.view, sb, f, bs)
      invariant PinnedAll(old(lg.bc.buf), old(lg.bc.pin), lg.bc.buf, lg.bc.pin, logged - todo) && todo <= logged
      decreases |todo|
    {
      var b: nat :| b in todo;
      ghost var buf1, pin1 := lg.bc.buf, lg.bc.pin;
      OrderMore(bs, todo, logged, b);
      PatchedMore(old(lg.bc.view), lg.bc.view, sb, f, bs, b);
      ok := Update(lg, b, sb, f);
      if !ok {
        PinnedStops(old(lg.bc.buf), old(lg.bc.pin), buf1, pin1, logged, todo, b);
        return;
      }
      PinnedNext(old(lg.bc.buf), old(lg.bc.pin), buf1, pin1, lg.bc.buf, lg.bc.pin, logged, todo, b);
      todo := todo - {b};
      bs := bs + [b];
    }
    assert logged - todo == logged;
    PinnedCount(old(lg.bc.buf), old(lg.bc.pin), lg.bc.buf, lg.bc.pin, logged);
    ok := true;
  }

  lemma {:induction false} StartOrder(view: seq<Log.Block>, sb: Super, f: Fs, logged: set<nat>)
    ensures Order([], logged, logged) && Patched(view, view, sb, f, [])
  {
    forall b: nat | b < |view| ensures PatchedAt(view, view, sb, f, [], b) { }
  }

  /** Before a transaction the cache shows the disk. */
  lemma {:induction false} CleanCache(lg: WAL.Log)
    requires lg.Valid() && lg.n == 0 && lg.bc.held == {}
    ensures lg.bc.view == lg.bc.disk
  {
    hide BC.Shows, BC.Linked;
    assert lg.block[..0] == [];
    forall b: nat | b < |lg.bc.disk| ensures lg.bc.view[b] == lg.bc.disk[b] { lg.bc.CleanView(b); }
  }

  /** The blocks that a chunk logs are home blocks. */
  lemma {:induction false} ChunkHomes(d: Log.Disk, L: Log.Layout, sb: Super, f: Fs, f': Fs)
    requires OnDisk(d, sb, f) && ChunkStep(sb, f, f') && FsIs(sb, f') && Placed(sb, L, |f'.ino|)
    ensures Homes(d, L, f'.logged)
  {
    hide FsIs, Recorded, Placed, Loggable, Encoded;
    LogFits(sb, L, |f'.ino|);
    forall b | b in f'.logged ensures b < |d| && !L.InLog(b) && |d[b].words| == 256 {
      InRange(sb, L, f', b);
      assert BlockShows(d, sb, f, b);
    }
  }

  /** What the log holds once all blocks are stored is the transaction of the chunk. */
  lemma {:induction false} PendingCommits(d: Log.Disk, view: seq<Log.Block>, sb: Super, f: Fs, img: Fs, tx: Log.Tx)
    requires img.data == f.data && img.used == f.used && img.ino == f.ino && |tx.blocks| == |tx.data|
    requires Order(tx.blocks, {}, f.logged) && Patched(d, view, sb, img, tx.blocks)
    requires forall t :: 0 <= t < |tx.blocks| ==> tx.blocks[t] < |d| && tx.data[t] == view[tx.blocks[t]]
    ensures Commits(d, sb, f, tx)
  {
    forall t | 0 <= t < |tx.blocks|
      ensures |d[tx.blocks[t]].words| == 256
      ensures tx.data[t] == Encoded(d[tx.blocks[t]], sb, f, tx.blocks[t])
    {
      var b := tx.blocks[t];
      assert b in tx.blocks && PatchedAt(d, view, sb, img, tx.blocks, b);
      SameEncoded(d[b], sb, img, f, b);
    }
  }

  lemma {:induction false} SameEncoded(was: Log.Block, sb: Super, f: Fs, g: Fs, b: nat)
    requires |was.words| == 256 && f.data == g.data && f.used == g.used && f.ino == g.ino
    ensures Encoded(was, sb, f, b) == Encoded(was, sb, g, b)
  {
  }

  ghost function Listed(s: set<nat>): (bs: seq<nat>)
    ensures Distinct(bs) && |bs| == |s| && forall b :: b in bs <==> b in s
    ensures forall t :: 0 <= t < |bs| ==> bs[t] in s
  {
    if s == {} then [] else var b :| b in s; Listed(s - {b}) + [b]
  }

  /** The new contents of some blocks. */
  ghost function Images(d: Log.Disk, sb: Super, f: Fs, bs: seq<nat>): (r: seq<Log.Block>)
    requires forall t :: 0 <= t < |bs| ==> bs[t] < |d| && |d[bs[t]].words| == 256
    ensures |r| == |bs| && forall t :: 0 <= t < |bs| ==> r[t] == Encoded(d[bs[t]], sb, f, bs[t])
  {
    hide Encoded;
    if bs == [] then [] else
      var m := |bs| - 1;
      Images(d, sb, f, bs[..m]) + [Encoded(d[bs[m]], sb, f, bs[m])]
  }

  /** A transaction of a chunk, its blocks in some order. */
  lemma {:induction false} SomeTx(d: Log.Disk, L: Log.Layout, sb: Super, f: Fs) returns (tx: Log.Tx)
    requires Homes(d, L, f.logged)
    ensures Commits(d, sb, f, tx)
  {
    hide Encoded, Listed, Images, Distinct;
    var bs := Listed(f.logged);
    forall t | 0 <= t < |bs| ensures bs[t] < |d| && |d[bs[t]].words| == 256 { assert bs[t] in f.logged; }
    tx := Log.Tx(bs, Images(d, sb, f, bs));
  }

  /** end_op after the blocks of a chunk are stored. */
  method CommitChunk(lg: WAL.Log, sb: Super, img: Fs, logged: set<nat>, ghost f: Fs, ghost f': Fs)
    returns (ok: bool, ghost a: Attempt)
    requires lg.Valid() && lg.outstanding == 1 && lg.used == [0] && lg.n == 0 && lg.bc.held == {}
    requires OnDisk(lg.bc.disk, sb, f) && ChunkStep(sb, f, f') && FsIs(sb, f') && Placed(sb, lg.L, |f'.ino|)
    requires logged == f'.logged && img.data == f'.data && img.used == f'.used && img.ino == f'.ino
    modifies lg, lg.bc
    ensures Log.LogClear(old(lg.bc.disk), lg.L)
    ensures AttemptOk(a, lg.L, |old(lg.bc.disk)|) && Commits(old(lg.bc.disk), sb, f', a.tx)
    ensures ok ==> a.Completes? && lg.Valid() && lg.outstanding == 0 && lg.n == 0 && lg.bc.held == {}
    ensures ok ==> lg.bc.disk == RunAttempt(old(lg.bc.disk), lg.L, a)
    ensures !ok ==> a.Crashes? && lg.bc.disk == CrashedCommit(old(lg.bc.disk), lg.L, a.tx, a.k)
    ensures ok <==> Fits(old(lg.bc.buf), lg.L, logged)
    ensures ok ==> BC.Kept(old(lg.bc.buf), old(lg.bc.pin), lg.bc.buf, lg.bc.pin)
  {
    hide BC.Shows, BC.Linked, Encoded, Reservation.Within, Log.LoggableBlocks, Patched, Order, OnDisk,
         ChunkStep, FsIs, Placed, Commits, Homes, Missing, PinnedAll, WAL.LogServed, WAL.StopsAt, BC.Kept;
    ghost var d, L := lg.bc.disk, lg.L;
    OnDiskSize(d, sb, f);
    CleanCache(lg);
    ChunkHomes(d, L, sb, f, f');
    ghost var bs;
    ok, bs := StoreAll(lg, sb, img, logged);
    if !ok {
      ghost var tx := SomeTx(d, L, sb, f');
      CommitsOk(d, L, sb, f, f', tx);
      a := Crashes(tx, 0, []);
      return;
    }
    ghost var tx, buf1, pin1 := lg.Pending(), lg.bc.buf, lg.bc.pin;
    HomesOf(d, L, logged, bs);
    FitsIff(old(lg.bc.buf), old(lg.bc.pin), buf1, pin1, L, d, logged, bs);
    PendingCommits(d, lg.bc.view, sb, f', img, tx);
    ghost var j;
    ok, j := lg.EndOp(0);
    a := if ok then Completes(tx) else Crashes(tx, j, []);
    if ok { BC.KeptTwice(old(lg.bc.buf), old(lg.bc.pin), buf1, pin1, lg.bc.buf, lg.bc.pin); }
  }

  /** There are buffers for a transaction: for its blocks, and one for the blocks of the log
      unless these are in referenced buffers. */
  ghost predicate Fits(buf: seq<BC.Buf>, L: Log.Layout, logged: set<nat>) {
    var idle, need := |BC.IdleBufs(buf)|, |Missing(buf, logged)|;
    && need <= idle
    && (logged == {} || need < idle || forall b: nat :: L.start <= b <= L.start + |logged| ==> BC.Busy(buf, b))
  }

  lemma {:induction false} FitsIff(buf: seq<BC.Buf>, pin: seq<nat>, buf1: seq<BC.Buf>, pin1: seq<nat>, L: Log.Layout,
                                   d: Log.Disk, logged: set<nat>, bs: seq<nat>)
    requires PinnedAll(buf, pin, buf1, pin1, logged) && Homes(d, L, logged) && Order(bs, {}, logged)
    ensures BC.Kept(buf, pin, buf1, pin1) && |bs| == |logged|
    ensures Fits(buf, L, logged) <==> |bs| == 0 || WAL.LogServed(buf1, L, |bs|)
  {
    hide BC.Busy, BC.IdleBufs, BC.Kept, Missing;
    assert |logged| == 0 ==> logged == {};
    if WAL.LogServed(buf1, L, |bs|) && |BC.IdleBufs(buf1)| == 0 {
      forall b: nat | L.start <= b <= L.start + |logged| ensures BC.Busy(buf, b) {
        assert BC.Serves(buf1, b) && b !in logged;
      }
    }
  }

  /** One idle buffer more than a transaction can log is enough. */
  lemma {:induction false} FitsMany(buf: seq<BC.Buf>, L: Log.Layout, logged: set<nat>)
    requires |logged| < |BC.IdleBufs(buf)|
    ensures Fits(buf, L, logged)
  {
    CardMono(Missing(buf, logged), logged);
  }

  lemma {:induction false} FitsSame(buf: seq<BC.Buf>, buf': seq<BC.Buf>, L: Log.Layout, logged: set<nat>)
    requires BC.Took(buf, buf', {})
    ensures Fits(buf', L, logged) <==> Fits(buf, L, logged)
  {
    hide BC.Busy, BC.IdleBufs, BC.Took;
    BC.SameServes(buf, buf');
    assert Missing(buf', logged) == Missing(buf, logged);
  }

  lemma {:induction false} HomesOf(d: Log.Disk, L: Log.Layout, logged: set<nat>, bs: seq<nat>)
    requires Homes(d, L, logged) && Order(bs, {}, logged)
    ensures forall t :: 0 <= t < |bs| ==> bs[t] < |d|
  {
    forall t | 0 <= t < |bs| ensures bs[t] < |d| { assert bs[t] in bs; }
  }

  lemma {:induction false} OnDiskSize(d: Log.Disk, sb: Super, f: Fs)
    requires OnDisk(d, sb, f)
    ensures |d| == sb.size
  {
  }

  /** One transaction of filewrite, over the log: begin_op, writei, log_write of the blocks that
      it changes, end_op.  The log and the cache are not in use otherwise.  False is the panic
      for want of buffers; the disk is then that of a crash after the writes so far. */
  method LoggedChunk(fs: FileSystem, lg: WAL.Log, i: nat, off: nat, src: seq<Byte>, k: nat, n1: nat, ghost c: seq<Byte>)
    returns (r: int, ok: bool, ghost a: Attempt)
    requires fs.Valid() && k + n1 <= |src| && 0 < n1 <= 3072 && off + k < UINT && Written(fs.Now(), i, c, off, src, k)
    requires fs.dinode == fs.ino && OnDisk(lg.bc.disk, fs.sb, fs.Now()) && Placed(fs.sb, lg.L, |fs.ino|)
    requires Ready(lg)
    modifies fs, lg, lg.bc
    ensures fs.Valid() && fs.dinode == fs.ino && |fs.ino| == old(|fs.ino|)
    ensures OthersKept(old(fs.data), old(fs.ino), fs.data, fs.ino, i)
    ensures -1 <= r <= n1 && Written(fs.Now(), i, c, off, src, if r > 0 then k + r else k) && off + k + r < UINT
    ensures r == -1 <==> off > |c| || off + k + n1 > MAXFILE * BSIZE
    ensures 0 <= r < n1 ==> FullAt(fs.data, fs.used, fs.ino, i, off + k + r)
    ensures ChunkStep(fs.sb, old(fs.Now()), fs.Now())
    ensures Log.LogClear(old(lg.bc.disk), lg.L) && AttemptOk(a, lg.L, |old(lg.bc.disk)|)
    ensures Commits(old(lg.bc.disk), fs.sb, fs.Now(), a.tx)
    ensures ok ==> a.Completes? && Ready(lg) && OnDisk(lg.bc.disk, fs.sb, fs.Now())
    ensures ok ==> lg.bc.disk == RunAttempt(old(lg.bc.disk), lg.L, a)
    ensures !ok ==> a.Crashes? && lg.bc.disk == CrashedCommit(old(lg.bc.disk), lg.L, a.tx, a.k)
    ensures ok <==> Fits(old(lg.bc.buf), lg.L, fs.logged)
    ensures ok ==> BC.Took(old(lg.bc.buf), lg.bc.buf, {})
  {
    hide FsOk, BC.Shows, BC.Linked, Encoded, Reservation.Within, Log.LoggableBlocks, OnDisk,
         ChunkStep, Placed, Commits, OthersKept, Holds, Splice, FullAt, WriteLog, GrewTo, Blocks, Written, Fits,
         BC.Kept, BC.Took;
    ghost var f, d := fs.Now(), lg.bc.disk;
    ok := lg.BeginOp();
    r := fs.WriteChunk(i, off, src, k, n1, c);
    FsSize(fs.sb, fs.Now());
    ok, a := CommitChunk(lg, fs.sb, Fs(fs.data, fs.used, fs.ino, map[], {}), fs.logged, f, fs.Now());
    if ok {
      ChunkIsAtomic(d, lg.L, fs.sb, f, fs.Now(), a);
      SameRefs(old(lg.bc.buf), old(lg.bc.pin), old(lg.bc.disk), old(lg.bc.view), lg.bc.buf, lg.bc.pin, lg.bc.disk,
               lg.bc.view);
    }
  }

  /** Between transactions every reference is somebody else's than the log's. */
  lemma {:induction false} SameRefs(buf: seq<BC.Buf>, pin: seq<nat>, disk: Log.Disk, view: seq<Log.Block>,
                                    buf': seq<BC.Buf>, pin': seq<nat>, disk': Log.Disk, view': seq<Log.Block>)
    requires BC.Shows(buf, pin, disk, view, multiset{}, {}) && BC.Shows(buf', pin', disk', view', multiset{}, {})
    requires BC.Kept(buf, pin, buf', pin')
    ensures BC.Took(buf, buf', {})
  {
    hide BC.Shows;
    BC.NoPins(buf, pin, disk, view, {});
    BC.NoPins(buf', pin', disk', view', {});
  }

  /** Between two transactions. */
  ghost predicate Ready(lg: WAL.Log)
    reads lg, lg.bc
  {
    lg.Valid() && lg.outstanding == 0 && lg.n == 0 && lg.bc.held == {}
  }

  // ---- The whole of filewrite ----

  ghost predicate AllComplete(run: seq<Attempt>) {
    forall t :: 0 <= t < |run| ==> run[t].Completes?
  }

  /** The transactions so far, one for each stage but the first, and the disk they lead to. */
  ghost predicate SoFar(d: Log.Disk, L: Log.Layout, sb: Super, stages: seq<Stage>, run: seq<Attempt>, d': Log.Disk) {
    RunOf(d, L, sb, stages, run) && |run| == |stages| - 1 && AllComplete(run) && d' == Run(d, L, run)
  }

  lemma {:induction false} SoFarNone(d: Log.Disk, L: Log.Layout, sb: Super, st: Stage)
    requires Log.LogClear(d, L)
    ensures SoFar(d, L, sb, [st], [], d)
  {
  }

  lemma {:induction false} RunOfNext(d: Log.Disk, L: Log.Layout, sb: Super, stages: seq<Stage>, run: seq<Attempt>,
                                     d': Log.Disk, st: Stage, a: Attempt)
    requires SoFar(d, L, sb, stages, run, d') && AttemptOk(a, L, |d|) && Commits(d', sb, st.f, a.tx)
    ensures RunOf(d, L, sb, stages + [st], run + [a])
    ensures |d'| == |d| && Log.LogClear(d', L) && Run(d, L, run + [a]) == RunAttempt(d', L, a)
    ensures a.Completes? ==> SoFar(d, L, sb, stages + [st], run + [a], RunAttempt(d', L, a))
  {
    hide Commits, RunAttempt, Log.LogClear, Run, AttemptOk;
    var stages', run' := stages + [st], run + [a];
    assert run'[..|run|] == run;
    assert forall t :: 0 <= t < |run'| ==> AttemptOk(run'[t], L, |d|);
    forall t | 0 <= t < |run'| ensures StageRun(d, L, sb, stages', run', t) {
      if t < |run| {
        StageStays(d, L, sb, stages, run, st, a, t);
      }
    }
    RunMore(d, L, run, a);
  }

  lemma {:induction false} StageStays(d: Log.Disk, L: Log.Layout, sb: Super, stages: seq<Stage>, run: seq<Attempt>,
                                      st: Stage, a: Attempt, t: nat)
    requires Log.LogClear(d, L) && t < |run| < |stages| && AttemptOk(a, L, |d|) && AllComplete(run)
    requires forall s :: 0 <= s < |run| ==> AttemptOk(run[s], L, |d|)
    requires StageRun(d, L, sb, stages, run, t)
    ensures forall s :: 0 <= s < |run + [a]| ==> AttemptOk((run + [a])[s], L, |d|)
    ensures StageRun(d, L, sb, stages + [st], run + [a], t)
  {
    hide Commits, Log.LogClear, Run, AttemptOk;
    assert (run + [a])[..t] == run[..t];
  }

  lemma {:induction false} RunMore(d: Log.Disk, L: Log.Layout, run: seq<Attempt>, a: Attempt)
    requires Log.LogClear(d, L) && AttemptOk(a, L, |d|) && forall s :: 0 <= s < |run| ==> AttemptOk(run[s], L, |d|)
    ensures forall s :: 0 <= s < |run + [a]| ==> AttemptOk((run + [a])[s], L, |d|)
    ensures |Run(d, L, run)| == |d| && Log.LogClear(Run(d, L, run), L)
    ensures Run(d, L, run + [a]) == RunAttempt(Run(d, L, run), L, a)
  {
    hide RunAttempt, Log.LogClear, AttemptOk;
    assert (run + [a])[..|run|] == run;
  }

  /** filewrite over the log: one transaction for each chunk.  False is the panic for want of
      buffers in the last transaction of the run. */
  method LoggedWrite(fs: FileSystem, lg: WAL.Log, i: nat, off: nat, src: seq<Byte>, ghost c: seq<Byte>)
    returns (ret: int, ok: bool, ghost stages: seq<Stage>, ghost run: seq<Attempt>)
    requires fs.Valid() && i < |fs.ino| && |fs.ino[i].addrs| == NDIRECT + 1 && Holds(fs.data, fs.ino, i, c)
    requires off < UINT && fs.dinode == fs.ino
    requires OnDisk(lg.bc.disk, fs.sb, fs.Now()) && Placed(fs.sb, lg.L, |fs.ino|) && Ready(lg)
    modifies fs, lg, lg.bc
    ensures fs.Valid() && fs.dinode == fs.ino && |fs.ino| == old(|fs.ino|)
    ensures OthersKept(old(fs.data), old(fs.ino), fs.data, fs.ino, i) && |stages| > 0
    ensures Staged(fs.sb, old(fs.Now()), stages, stages[|stages| - 1], i, c, off, src)
    ensures stages[|stages| - 1].f == fs.Now() && RunOf(old(lg.bc.disk), lg.L, fs.sb, stages, run)
    ensures ok ==> ret == if stages[|stages| - 1].done == |src| then |src| else -1
    ensures var done := stages[|stages| - 1].done;
            && (ok ==> done == |src| || CutShort(c, off, src, done) || FullAt(fs.data, fs.used, fs.ino, i, off + done))
            && (done > 0 ==> off <= |c| && off + done <= MAXFILE * BSIZE)
    ensures ok ==> Ready(lg) && OnDisk(lg.bc.disk, fs.sb, fs.Now())
    ensures ok ==> SoFar(old(lg.bc.disk), lg.L, fs.sb, stages, run, lg.bc.disk)
    ensures !ok ==> run != [] && |run| == |stages| - 1 && AllComplete(run[..|run| - 1])
    ensures !ok ==> Panicked(old(lg.bc.disk), lg.L, run, lg.bc.disk)
    ensures ok <==> AllFit(old(lg.bc.buf), lg.L, stages)
    ensures |BC.IdleBufs(old(lg.bc.buf))| > MAXOPBLOCKS ==> ok
  {
    hide FsOk, OthersKept, Holds, Splice, FullAt, ChunkStep, Staged, Written, OnDisk, Placed, RunOf, SoFar, Commits,
         BC.Shows, BC.Linked, Reservation.Within, Log.LoggableBlocks, Panicked, RunAttempt, FsIs, Fits, BC.Took,
         AllFit;
    WAL.TookNone(lg.bc.buf);
    ghost var f0, d0, L, sb := fs.Now(), lg.bc.disk, lg.L, fs.sb;
    FsSize(sb, f0);
    WriteBegin(sb, f0, i, off, src, c);
    SoFarNone(d0, L, sb, Stage(f0, 0));
    var max := (MAXOPBLOCKS - 1 - 1 - 2) / 2 * BSIZE;
    stages, run, ok, ret := [Stage(f0, 0)], [], true, 0;
    AllFitNone(lg.bc.buf, L, stages);
    var k, done := 0, 0;
    while k < |src|
      invariant 0 <= k <= |src| && off + k < UINT && done == k && fs.Valid() && fs.dinode == fs.ino
      invariant |fs.ino| == old(|fs.ino|) && OthersKept(old(fs.data), old(fs.ino), fs.data, fs.ino, i)
      invariant |stages| > 0 && stages[|stages| - 1] == Stage(fs.Now(), k)
      invariant Written(fs.Now(), i, c, off, src, k) && Staged(sb, f0, stages, Stage(fs.Now(), k), i, c, off, src)
      invariant BC.Took(old(lg.bc.buf), lg.bc.buf, {}) && AllFit(old(lg.bc.buf), L, stages)
      invariant SoFar(d0, L, sb, stages, run, lg.bc.disk) && Ready(lg) && OnDisk(lg.bc.disk, sb, fs.Now())
      invariant (k == |src| || k % 3072 == 0) && (k > 0 ==> off <= |c| && off + k <= MAXFILE * BSIZE)
      decreases |src| - k
    {
      var n1 := if |src| - k > max then max else |src| - k;
      ghost var f, d, buf1 := fs.Now(), lg.bc.disk, lg.bc.buf;
      var r;
      ghost var a;
      SoFarSize(d0, L, sb, stages, run, d);
      r, ok, a := LoggedChunk(fs, lg, i, off, src, k, n1, c);
      OthersTrans(old(fs.data), old(fs.ino), f.data, f.ino, fs.data, fs.ino, i);
      done := if r > 0 then k + r else k;
      FsSize(sb, fs.Now());
      StagedNext(sb, f0, stages, Stage(f, k), Stage(fs.Now(), done), i, c, off, src);
      RunOfNext(d0, L, sb, stages, run, d, Stage(fs.Now(), done), a);
      FitsSame(old(lg.bc.buf), buf1, L, fs.logged);
      AllFitNext(old(lg.bc.buf), L, stages, Stage(fs.Now(), done));
      EnoughFit(old(lg.bc.buf), L, sb, f, fs.Now());
      if ok { WAL.TookBoth(old(lg.bc.buf), buf1, lg.bc.buf); }
      if !ok { PanicIs(d0, L, sb, stages, run, d, a, lg.bc.disk); }
      stages, run := stages + [Stage(fs.Now(), done)], run + [a];
      if !ok { return; }
      if r != n1 { break; }
      k := k + r;
    }
    SoFarSize(d0, L, sb, stages, run, lg.bc.disk);
    ret := if k == |src| then |src| else -1;
  }

  /** There are buffers for every transaction. */
  ghost predicate AllFit(buf: seq<BC.Buf>, L: Log.Layout, stages: seq<Stage>) {
    forall t :: 1 <= t < |stages| ==> Fits(buf, L, stages[t].f.logged)
  }

  lemma {:induction false} AllFitNone(buf: seq<BC.Buf>, L: Log.Layout, stages: seq<Stage>)
    requires |stages| == 1
    ensures AllFit(buf, L, stages)
  {
  }

  lemma {:induction false} AllFitNext(buf: seq<BC.Buf>, L: Log.Layout, stages: seq<Stage>, st: Stage)
    requires AllFit(buf, L, stages) && |stages| > 0
    ensures AllFit(buf, L, stages + [st]) <==> Fits(buf, L, st.f.logged)
  {
    hide Fits;
    var all := stages + [st];
    assert all[|stages|] == st;
    forall t | 1 <= t < |stages| ensures Fits(buf, L, all[t].f.logged) { assert all[t] == stages[t]; }
  }

  lemma {:induction false} EnoughFit(buf: seq<BC.Buf>, L: Log.Layout, sb: Super, f: Fs, f': Fs)
    requires ChunkStep(sb, f, f')
    ensures |BC.IdleBufs(buf)| > MAXOPBLOCKS ==> Fits(buf, L, f'.logged)
  {
    if |BC.IdleBufs(buf)| > MAXOPBLOCKS { FitsMany(buf, L, f'.logged); }
  }

  /** The disk is that of a crash inside the last transaction of the run. */
  ghost predicate Panicked(d: Log.Disk, L: Log.Layout, run: seq<Attempt>, d': Log.Disk) {
    && run != [] && Log.LogClear(d, L) && (forall t :: 0 <= t < |run| ==> AttemptOk(run[t], L, |d|))
    && var a := run[|run| - 1];
       a.Crashes? && d' == CrashedCommit(Run(d, L, run[..|run| - 1]), L, a.tx, a.k)
  }

  lemma {:induction false} SoFarSize(d: Log.Disk, L: Log.Layout, sb: Super, stages: seq<Stage>, run: seq<Attempt>,
                                     d': Log.Disk)
    requires SoFar(d, L, sb, stages, run, d')
    ensures |d'| == |d| && Log.LogClear(d', L) && RunOf(d, L, sb, stages, run) && |run| == |stages| - 1
  {
  }

  lemma {:induction false} PanicIs(d: Log.Disk, L: Log.Layout, sb: Super, stages: seq<Stage>, run: seq<Attempt>,
                                   d': Log.Disk, a: Attempt, e: Log.Disk)
    requires SoFar(d, L, sb, stages, run, d') && AttemptOk(a, L, |d|) && a.Crashes?
    requires |d'| == |d| && Log.LogClear(d', L) && e == CrashedCommit(d', L, a.tx, a.k)
    ensures Panicked(d, L, run + [a], e) && AllComplete((run + [a])[..|run|])
  {
    assert (run + [a])[..|run|] == run;
  }

  /** The power fails in transaction `t` after `k` of its block writes, and recoveries are cut
      short at `cuts`: the file holds its old bytes with a first part of the new ones written
      over them, up to this transaction if its header was written and else up to the one before. */
  lemma {:induction false} PowerCut(d: Log.Disk, L: Log.Layout, sb: Super, f: Fs, stages: seq<Stage>, end: Stage,
                                    i: nat, c: seq<Byte>, off: nat, src: seq<Byte>, run: seq<Attempt>, t: nat,
                                    k: nat, cuts: seq<nat>)
    requires Staged(sb, f, stages, end, i, c, off, src) && OnDisk(d, sb, f) && Placed(sb, L, |f.ino|)
    requires RunOf(d, L, sb, stages, run) && t < |run|
    requires k <= if |run[t].tx.blocks| == 0 then 0 else 2 * |run[t].tx.blocks| + 2
    ensures var crashed, m := run[..t] + [Crashes(run[t].tx, k, cuts)], if k > |run[t].tx.blocks| then t + 1 else t;
            && RunOf(d, L, sb, stages, crashed)
            && Survives(Run(d, L, crashed), sb, stages[m].f, i, c, off, src, stages[m].done)
  {
    hide Staged, OnDisk, Placed, Written, FsIs, Commits, Log.LogClear, Log.TxOk, RunAttempt;
    var a := Crashes(run[t].tx, k, cuts);
    var crashed := run[..t] + [a];
    assert AttemptOk(run[t], L, |d|);
    forall s | 0 <= s < |crashed| ensures AttemptOk(crashed[s], L, |d|) { }
    forall s | 0 <= s < |crashed| ensures StageRun(d, L, sb, stages, crashed, s) {
      assert StageRun(d, L, sb, stages, run, s);
      assert crashed[..s] == run[..s];
    }
    WriteSurvives(d, L, sb, f, stages, end, i, c, off, src, crashed);
    StageIs(sb, f, stages, end, i, c, off, src, Effective(crashed));
  }

  lemma {:induction false} StageIs(sb: Super, f: Fs, stages: seq<Stage>, end: Stage, i: nat, c: seq<Byte>, off: nat,
                                   src: seq<Byte>, m: nat)
    requires Staged(sb, f, stages, end, i, c, off, src) && m < |stages|
    ensures FsIs(sb, stages[m].f)
  {
  }
}
