/** Files across crashes: the blocks of the disk that a file system is read from, the
    transactions of filewrite, and what recovery makes of them. */
module FileCrash {
  import opened Types
  import opened Counting
  import opened FileModel
  import opened FileLog
  import opened FileOps
  import opened CrashAtomicity
  import Log = LogFormat

  // ---- Blocks of the disk, as words ----

  function DataBlock(b: Block): (r: Log.Block)
    requires |b| == BSIZE
    ensures |r.words| == 256
  {
    Log.Block(seq(256, j requires 0 <= j < 256 => Word(b, j)))
  }

  /** The bits of blocks x..x+n-1, the first one lowest. */
  function BitsFrom(used: seq<bool>, x: nat, n: nat): nat
    decreases n
  {
    if n == 0 then 0 else (if x < |used| && used[x] then 1 else 0) + 2 * BitsFrom(used, x + 1, n - 1)
  }

  /** Block `k` of the bitmap. */
  function BitsBlock(used: seq<bool>, k: nat): (r: Log.Block)
    ensures |r.words| == 256
  {
    Log.Block(seq(256, j requires 0 <= j < 256 => BitsFrom(used, 8192 * k + 32 * j, 32)))
  }

  /** Word `w` of an inode on disk: the size and the addresses.  The first two words, with the
      type and the link count, are not those of this model. */
  function InodeWord(was: int, i: Inode, w: nat): int {
    if w == 2 then i.size else if 3 <= w && w - 3 < |i.addrs| then i.addrs[w - 3] else was
  }

  /** Block `k` of the inodes, written over `was`. */
  function InodesBlock(was: Log.Block, ino: seq<Inode>, k: nat): (r: Log.Block)
    requires |was.words| == 256
    ensures |r.words| == 256
  {
    Log.Block(seq(256, w requires 0 <= w < 256 =>
      var i := 16 * k + w / 16; if i < |ino| then InodeWord(was.words[w], ino[i], w % 16) else was.words[w]))
  }

  /** What block `b` of the disk is to hold, written over `was`. */
  function Encoded(was: Log.Block, sb: Super, f: Fs, b: nat): (r: Log.Block)
    requires |was.words| == 256
    ensures |r.words| == 256
  {
    if sb.nmeta <= b then (if b < |f.data| && |f.data[b]| == BSIZE then DataBlock(f.data[b]) else was)
    else if sb.bmapstart <= b then BitsBlock(f.used, b - sb.bmapstart)
    else if sb.inodestart <= b then InodesBlock(was, f.ino, b - sb.inodestart)
    else was
  }

  /** The file system can be read from the disk. */
  ghost predicate OnDisk(d: Log.Disk, sb: Super, f: Fs) {
    |d| == sb.size && forall b: nat :: sb.inodestart <= b < sb.size ==> BlockShows(d, sb, f, b)
  }

  ghost predicate BlockShows(d: Log.Disk, sb: Super, f: Fs, b: nat)
    requires b < |d|
  {
    |d[b].words| == 256 && d[b] == Encoded(d[b], sb, f, b)
  }

  /** The layout of mkfs: the log, the inodes, the bitmap, the data. */
  ghost predicate Placed(sb: Super, L: Log.Layout, ninodes: nat) {
    && L.start + L.size <= sb.inodestart && MAXOPBLOCKS < L.size
    && ninodes <= 16 * (sb.bmapstart - sb.inodestart) && sb.size <= 8192 * (sb.nmeta - sb.bmapstart)
    && sb.inodestart <= sb.bmapstart <= sb.nmeta <= sb.size
  }

  // ---- The disk determines the file system ----

  lemma {:induction false} BitsDiffer(u: seq<bool>, v: seq<bool>, x: nat, n: nat, y: nat)
    requires |u| == |v| && BitsFrom(u, x, n) == BitsFrom(v, x, n) && x <= y < x + n && y < |u|
    ensures u[y] == v[y]
    decreases n
  {
    if y > x { BitsDiffer(u, v, x + 1, n - 1, y); }
  }

  lemma {:induction false} BitsSame(u: seq<bool>, v: seq<bool>, x: nat, n: nat)
    requires |u| == |v| && forall y :: x <= y < x + n && y < |u| ==> u[y] == v[y]
    ensures BitsFrom(u, x, n) == BitsFrom(v, x, n)
    decreases n
  {
    if n > 0 { BitsSame(u, v, x + 1, n - 1); }
  }

  lemma {:induction false} WordDiffer(a: Block, b: Block, n: nat)
    requires |a| == |b| == BSIZE && n < BSIZE && Word(a, n / 4) == Word(b, n / 4)
    ensures a[n] == b[n]
  {
    var j := n / 4;
    Digits(a[4 * j], a[4 * j + 1], a[4 * j + 2], a[4 * j + 3], b[4 * j], b[4 * j + 1], b[4 * j + 2], b[4 * j + 3]);
    assert n == 4 * j || n == 4 * j + 1 || n == 4 * j + 2 || n == 4 * j + 3;
  }

  lemma {:induction false} Digit(a: Byte, x: int, b: Byte, y: int)
    requires a + 0x100 * x == b + 0x100 * y
    ensures a == b && x == y
  {
  }

  lemma {:induction false} Digits(a0: Byte, a1: Byte, a2: Byte, a3: Byte, b0: Byte, b1: Byte, b2: Byte, b3: Byte)
    requires a0 + 0x100 * a1 + 0x1_0000 * a2 + 0x100_0000 * a3 == b0 + 0x100 * b1 + 0x1_0000 * b2 + 0x100_0000 * b3
    ensures a0 == b0 && a1 == b1 && a2 == b2 && a3 == b3
  {
    Digit(a0, a1 + 0x100 * a2 + 0x1_0000 * a3, b0, b1 + 0x100 * b2 + 0x1_0000 * b3);
    Digit(a1, a2 + 0x100 * a3, b1, b2 + 0x100 * b3);
    Digit(a2, a3, b2, b3);
  }

  lemma {:induction false} DataDiffer(a: Block, b: Block)
    requires |a| == |b| == BSIZE && DataBlock(a) == DataBlock(b)
    ensures a == b
  {
    hide Word;
    forall n | 0 <= n < BSIZE ensures a[n] == b[n] {
      assert DataBlock(a).words[n / 4] == DataBlock(b).words[n / 4];
      WordDiffer(a, b, n);
    }
  }

  /** Two file systems that can be read from the same disk have the same data, bitmap and
      inodes. */
  lemma {:induction false} Readable(d: Log.Disk, L: Log.Layout, sb: Super, f: Fs, g: Fs, b: nat)
    requires OnDisk(d, sb, f) && OnDisk(d, sb, g) && FsIs(sb, f) && FsIs(sb, g) && |f.ino| == |g.ino|
    requires Placed(sb, L, |f.ino|)
    ensures sb.nmeta <= b < sb.size ==> f.data[b] == g.data[b]
    ensures b < sb.size ==> f.used[b] == g.used[b]
    ensures b < |f.ino| ==> f.ino[b] == g.ino[b]
  {
    hide FsOk;
    Sizes(sb, f);
    Sizes(sb, g);
    if sb.nmeta <= b < sb.size {
      assert BlockShows(d, sb, f, b) && BlockShows(d, sb, g, b);
      DataDiffer(f.data[b], g.data[b]);
    }
    if b < sb.size {
      BitPlace(b, sb.size, sb.nmeta - sb.bmapstart);
      ReadBit(d, sb, f, g, b / 8192, b % 8192 / 32, b);
    }
    if b < |f.ino| { ReadInode(d, L, sb, f, g, b); }
  }

  lemma {:induction false} Sizes(sb: Super, f: Fs)
    requires FsIs(sb, f)
    ensures |f.data| == |f.used| == sb.size
    ensures forall b :: 0 <= b < sb.size ==> |f.data[b]| == BSIZE
    ensures forall i :: 0 <= i < |f.ino| ==> |f.ino[i].addrs| == NDIRECT + 1
  {
  }

  lemma {:induction false} BitPlace(b: nat, size: nat, n: int)
    requires b < size <= 8192 * n
    ensures b / 8192 < n && b % 8192 / 32 < 256
    ensures 8192 * (b / 8192) + 32 * (b % 8192 / 32) <= b < 8192 * (b / 8192) + 32 * (b % 8192 / 32) + 32
  {
  }

  lemma {:induction false} ReadBit(d: Log.Disk, sb: Super, f: Fs, g: Fs, k: nat, j: nat, b: nat)
    requires OnDisk(d, sb, f) && OnDisk(d, sb, g) && b < sb.size == |f.used| == |g.used|
    requires sb.inodestart <= sb.bmapstart && sb.bmapstart + k < sb.nmeta <= sb.size && j < 256
    requires 8192 * k + 32 * j <= b < 8192 * k + 32 * j + 32
    ensures f.used[b] == g.used[b]
  {
    hide BitsFrom;
    var x := sb.bmapstart + k;
    assert BlockShows(d, sb, f, x) && BlockShows(d, sb, g, x);
    assert BitsBlock(f.used, k).words[j] == BitsBlock(g.used, k).words[j];
    BitsDiffer(f.used, g.used, 8192 * k + 32 * j, 32, b);
  }

  lemma {:induction false} ReadInode(d: Log.Disk, L: Log.Layout, sb: Super, f: Fs, g: Fs, i: nat)
    requires OnDisk(d, sb, f) && OnDisk(d, sb, g) && Placed(sb, L, |f.ino|) && i < |f.ino| == |g.ino|
    requires |f.ino[i].addrs| == |g.ino[i].addrs| == NDIRECT + 1
    ensures f.ino[i] == g.ino[i]
  {
    var k := i / 16;
    var x := sb.inodestart + k;
    assert BlockShows(d, sb, f, x) && BlockShows(d, sb, g, x);
    forall w | 2 <= w < 16 ensures InodeWord(0, f.ino[i], w) == InodeWord(0, g.ino[i], w) {
      WordPlace(i, w);
      assert InodesBlock(d[x], f.ino, k).words[16 * (i % 16) + w]
        == InodesBlock(d[x], g.ino, k).words[16 * (i % 16) + w];
    }
    assert InodeWord(0, f.ino[i], 2) == InodeWord(0, g.ino[i], 2);
    forall s | 0 <= s < 13 ensures f.ino[i].addrs[s] == g.ino[i].addrs[s] {
      assert InodeWord(0, f.ino[i], s + 3) == InodeWord(0, g.ino[i], s + 3);
    }
  }

  lemma {:induction false} WordPlace(i: nat, w: nat)
    requires w < 16
    ensures 16 * (i % 16) + w < 256 && (16 * (i % 16) + w) / 16 == i % 16 && (16 * (i % 16) + w) % 16 == w
    ensures 16 * (i / 16) + i % 16 == i
  {
  }

  // ---- What a transaction changes on the disk ----

  /** A block that is not logged holds the same for the new file system as for the old one. */
  lemma {:induction false} EncodedSame(was: Log.Block, sb: Super, f: Fs, f': Fs, b: nat)
    requires |was.words| == 256 && ChunkStep(sb, f, f') && b !in f'.logged
    ensures Encoded(was, sb, f', b) == Encoded(was, sb, f, b)
  {
    hide Loggable;
    if sb.bmapstart <= b < sb.nmeta {
      SameBits(sb, f, f', b - sb.bmapstart);
    } else if sb.inodestart <= b < sb.nmeta {
      SameInodes(was, sb, f, f', b - sb.inodestart);
    }
  }

  lemma {:induction false} BitOf(sb: Super, k: nat, j: nat, y: nat)
    requires j < 256 && 8192 * k + 32 * j <= y < 8192 * k + 32 * j + 32
    ensures BitmapBlock(sb, y) == sb.bmapstart + k
  {
  }

  lemma {:induction false} SameBits(sb: Super, f: Fs, f': Fs, k: nat)
    requires Recorded(sb, f.(logged := {}), f') && sb.bmapstart + k !in f'.logged
    ensures BitsBlock(f'.used, k) == BitsBlock(f.used, k)
  {
    hide BitsFrom, BitmapBlock;
    forall j | 0 <= j < 256
      ensures BitsFrom(f'.used, 8192 * k + 32 * j, 32) == BitsFrom(f.used, 8192 * k + 32 * j, 32)
    {
      var x := 8192 * k + 32 * j;
      forall y | x <= y < x + 32 && y < |f.used| ensures f'.used[y] == f.used[y] {
        BitOf(sb, k, j, y);
      }
      BitsSame(f'.used, f.used, x, 32);
    }
  }

  lemma {:induction false} SameInodes(was: Log.Block, sb: Super, f: Fs, f': Fs, k: nat)
    requires |was.words| == 256 && |f'.ino| == |f.ino| && sb.inodestart + k !in f'.logged
    requires forall j :: 0 <= j < |f.ino| && f'.ino[j] != f.ino[j] ==> InodeBlock(sb, j) in f'.logged
    ensures InodesBlock(was, f'.ino, k) == InodesBlock(was, f.ino, k)
  {
    forall j | 16 * k <= j < 16 * k + 16 && j < |f.ino| ensures f'.ino[j] == f.ino[j] {
      assert InodeBlock(sb, j) == sb.inodestart + k;
    }
  }

  /** Writing a block again changes nothing. */
  lemma {:induction false} EncodedAgain(was: Log.Block, sb: Super, f: Fs, b: nat)
    requires |was.words| == 256
    ensures Encoded(Encoded(was, sb, f, b), sb, f, b) == Encoded(was, sb, f, b)
  {
  }

  /** The transaction of a chunk: the logged blocks in some order, each with what it is to hold. */
  ghost predicate Commits(d: Log.Disk, sb: Super, f': Fs, tx: Log.Tx) {
    && |tx.blocks| == |tx.data| && Distinct(tx.blocks) && (forall b :: b in tx.blocks <==> b in f'.logged)
    && (forall t :: 0 <= t < |tx.blocks| ==>
          tx.blocks[t] < |d| && |d[tx.blocks[t]].words| == 256
          && tx.data[t] == Encoded(d[tx.blocks[t]], sb, f', tx.blocks[t]))
  }

  lemma {:induction false} InRange(sb: Super, L: Log.Layout, f: Fs, b: nat)
    requires FsIs(sb, f) && Placed(sb, L, |f.ino|) && Loggable(sb, f.own, |f.ino|, b)
    ensures sb.inodestart <= b < sb.size && !L.InLog(b)
  {
    if b in f.own {
      assert BlockOk(sb, f.data, f.used, f.ino, f.own, b);
    } else if x :| x in f.own && b == BitmapBlock(sb, x) {
      assert BlockOk(sb, f.data, f.used, f.ino, f.own, x);
    }
  }

  /** The transaction of a chunk fits the log. */
  lemma {:induction false} CommitsOk(d: Log.Disk, L: Log.Layout, sb: Super, f: Fs, f': Fs, tx: Log.Tx)
    requires ChunkStep(sb, f, f') && FsIs(sb, f') && Placed(sb, L, |f'.ino|) && Commits(d, sb, f', tx) && |d| == sb.size
    ensures Log.TxOk(tx, L, |d|)
  {
    hide FsIs, Recorded, Placed, Loggable;
    assert Elements(tx.blocks) == f'.logged;
    forall t | 0 <= t < |tx.blocks| ensures tx.blocks[t] < |d| && !L.InLog(tx.blocks[t]) {
      assert tx.blocks[t] in f'.logged;
      InRange(sb, L, f', tx.blocks[t]);
    }
    LogFits(sb, L, |f'.ino|);
  }

  lemma {:induction false} LogFits(sb: Super, L: Log.Layout, n: nat)
    requires Placed(sb, L, n)
    ensures MAXOPBLOCKS <= L.size - 1 && MAXOPBLOCKS <= Log.LOGSIZE
  {
  }

  /** Once the transaction is installed, the new file system is on the disk. */
  lemma {:induction false} Installed(d: Log.Disk, L: Log.Layout, sb: Super, f: Fs, f': Fs, tx: Log.Tx)
    requires OnDisk(d, sb, f) && ChunkStep(sb, f, f') && Commits(d, sb, f', tx) && Log.TxOk(tx, L, |d|)
    ensures OnDisk(Log.After(d, tx), sb, f')
  {
    hide Recorded, Loggable, ChunkStep, Encoded;
    var e := Log.After(d, tx);
    InstallAt(d, L, tx, |tx.blocks|);
    forall b: nat | sb.inodestart <= b < sb.size ensures BlockShows(e, sb, f', b) {
      assert BlockShows(d, sb, f, b);
      if b in tx.blocks {
        var t :| 0 <= t < |tx.blocks| && tx.blocks[t] == b;
        EncodedAgain(d[b], sb, f', b);
      } else {
        EncodedSame(d[b], sb, f, f', b);
      }
    }
  }

  /** Only home blocks matter. */
  lemma {:induction false} SameShows(d: Log.Disk, e: Log.Disk, L: Log.Layout, sb: Super, f: Fs)
    requires OnDisk(d, sb, f) && Log.SameHome(e, d, L) && L.start + L.size <= sb.inodestart
    ensures OnDisk(e, sb, f)
  {
    hide Encoded;
    forall b: nat | sb.inodestart <= b < sb.size ensures b < |e| && BlockShows(e, sb, f, b) {
      assert BlockShows(d, sb, f, b) && !L.InLog(b);
      assert e[b] == d[b];
    }
  }

  /** A chunk of filewrite is atomic: after any crash during its transaction and any crashed
      recoveries, the disk has the file system before it or after it, whole. */
  lemma {:induction false} ChunkIsAtomic(d: Log.Disk, L: Log.Layout, sb: Super, f: Fs, f': Fs, a: Attempt)
    requires Log.LogClear(d, L) && OnDisk(d, sb, f) && ChunkStep(sb, f, f') && FsIs(sb, f') && Placed(sb, L, |f'.ino|)
    requires Commits(d, sb, f', a.tx) && AttemptOk(a, L, |d|)
    ensures OnDisk(RunAttempt(d, L, a), sb, if Committed(a) then f' else f)
  {
    hide OnDisk, ChunkStep, Commits, FsIs;
    AttemptIsAtomic(d, L, a);
    if Committed(a) {
      Installed(d, L, sb, f, f', a.tx);
      SameShows(Log.After(d, a.tx), RunAttempt(d, L, a), L, sb, f');
    } else {
      SameShows(d, RunAttempt(d, L, a), L, sb, f);
    }
  }

  // ---- The whole of filewrite ----

  /** The transactions of the first stages, each complete except perhaps the last one. */
  ghost predicate RunOf(d: Log.Disk, L: Log.Layout, sb: Super, stages: seq<Stage>, run: seq<Attempt>)
  {
    && Log.LogClear(d, L) && |run| < |stages|
    && (forall t :: 0 <= t < |run| ==> AttemptOk(run[t], L, |d|))
    && (forall t :: 0 <= t < |run| ==> StageRun(d, L, sb, stages, run, t))
  }

  ghost predicate StageRun(d: Log.Disk, L: Log.Layout, sb: Super, stages: seq<Stage>, run: seq<Attempt>, t: nat)
    requires t < |run| < |stages| && Log.LogClear(d, L)
    requires forall s :: 0 <= s < |run| ==> AttemptOk(run[s], L, |d|)
  {
    Commits(Run(d, L, run[..t]), sb, stages[t + 1].f, run[t].tx) && (t + 1 < |run| ==> run[t].Completes?)
  }

  /** How many transactions of the run are in effect. */
  ghost function Effective(run: seq<Attempt>): nat {
    if run != [] && !Committed(run[|run| - 1]) then |run| - 1 else |run|
  }

  lemma {:induction false} RunOfPrefix(d: Log.Disk, L: Log.Layout, sb: Super, stages: seq<Stage>, run: seq<Attempt>)
    requires RunOf(d, L, sb, stages, run) && run != []
    ensures RunOf(d, L, sb, stages, run[..|run| - 1]) && Effective(run[..|run| - 1]) == |run| - 1
  {
    var p := run[..|run| - 1];
    forall t | 0 <= t < |p| ensures StageRun(d, L, sb, stages, p, t) {
      assert p[..t] == run[..t];
      assert StageRun(d, L, sb, stages, run, t);
    }
    assert p != [] ==> StageRun(d, L, sb, stages, run, |p| - 1);
  }

  /** filewrite across a crash: whatever transaction the machine crashes in and however often
      the recoveries are cut short, the disk has one of its stages, so the file holds the bytes
      that it held with a first part of the new ones written over them. */
  lemma {:induction false} WriteSurvives(d: Log.Disk, L: Log.Layout, sb: Super, f: Fs, stages: seq<Stage>, end: Stage,
                                         i: nat, c: seq<Byte>, off: nat, src: seq<Byte>, run: seq<Attempt>)
    requires Staged(sb, f, stages, end, i, c, off, src) && OnDisk(d, sb, f) && Placed(sb, L, |f.ino|)
    requires RunOf(d, L, sb, stages, run)
    ensures Effective(run) < |stages| && OnDisk(Run(d, L, run), sb, stages[Effective(run)].f)
    ensures Written(stages[Effective(run)].f, i, c, off, src, stages[Effective(run)].done)
    ensures |stages[Effective(run)].f.ino| == |f.ino|
    decreases |run|
  {
    hide OnDisk, ChunkStep, Written, FsIs, Placed, Commits;
    if run != [] {
      var n := |run| - 1;
      RunOfPrefix(d, L, sb, stages, run);
      WriteSurvives(d, L, sb, f, stages, end, i, c, off, src, run[..n]);
      assert Transacts(sb, stages, n) && StageRun(d, L, sb, stages, run, n);
      SameInodeCount(sb, stages[n].f, stages[n + 1].f);
      ChunkIsAtomic(Run(d, L, run[..n]), L, sb, stages[n].f, stages[n + 1].f, run[n]);
    }
  }

  lemma {:induction false} SameInodeCount(sb: Super, f: Fs, f': Fs)
    requires ChunkStep(sb, f, f')
    ensures |f'.ino| == |f.ino|
  {
  }

  /** The disk after the run has a file system in which the file holds `c` with the first `k`
      bytes of `src` written at `off`. */
  ghost predicate Survives(d: Log.Disk, sb: Super, f: Fs, i: nat, c: seq<Byte>, off: nat, src: seq<Byte>, k: nat) {
    OnDisk(d, sb, f) && FsIs(sb, f) && Written(f, i, c, off, src, k)
  }

  /** filewrite on a file system that is on disk `d`: for every run of its transactions that ends
      in a crash or not, the file survives with a first part of the bytes written. */
  method WriteThroughCrashes(fs: FileSystem, i: nat, off: nat, src: seq<Byte>, ghost c: seq<Byte>, ghost d: Log.Disk,
                             ghost L: Log.Layout)
    returns (ret: int, ghost stages: seq<Stage>)
    requires fs.Valid() && i < |fs.ino| && |fs.ino[i].addrs| == NDIRECT + 1 && Holds(fs.data, fs.ino, i, c)
    requires off < UINT && fs.dinode == fs.ino && OnDisk(d, fs.sb, fs.Now()) && Placed(fs.sb, L, |fs.ino|)
    modifies fs
    ensures fs.Valid() && fs.dinode == fs.ino && |stages| > 0 && stages[|stages| - 1].f == fs.Now()
    ensures ret == |src| <==> stages[|stages| - 1].done == |src|
    ensures forall run :: RunOf(d, L, fs.sb, stages, run) ==>
              && Effective(run) < |stages|
              && Survives(Run(d, L, run), fs.sb, stages[Effective(run)].f, i, c, off, src, stages[Effective(run)].done)
  {
    hide FsOk, OthersKept, Holds, Splice, FullAt, ChunkStep, Written, OnDisk, Placed;
    ghost var f := fs.Now();
    var off';
    ghost var done;
    ret, off', done, stages := fs.FileWrite(i, off, src, c);
    ghost var sb, end := fs.sb, Stage(fs.Now(), done);
    forall run | RunOf(d, L, sb, stages, run)
      ensures Effective(run) < |stages|
      ensures Survives(Run(d, L, run), sb, stages[Effective(run)].f, i, c, off, src, stages[Effective(run)].done)
    {
      WriteSurvives(d, L, sb, f, stages, end, i, c, off, src, run);
    }
  }
}
