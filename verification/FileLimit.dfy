/** A disk on which a transaction of filewrite logs as many blocks as an operation may: the
    bound on its chunks cannot be raised. */
module FileLimit {
  import opened Counting
  import opened Types
  import opened FileModel
  import opened FileLog
  import opened FileOps

  const NFILES: nat := 93
  const DISK: nat := 24824
  const META: nat := 64

  function Layout(): Super {
    Super(DISK, 32, 40, META)
  }

  /** The four free blocks; their bits are in four blocks of the bitmap. */
  predicate IsFree(b: nat) {
    b == 344 || b == 8414 || b == 16484 || b == 24823
  }

  /** The block that a slot has: file 0 has its 12 direct blocks, and the other files share the
      rest of the disk, 269 blocks to each, but for the free ones. */
  function BlockAt(i: nat, k: nat): (b: nat)
    requires i < NFILES && k < NSLOTS
    ensures b < DISK
  {
    if i == 0 then (if k < NDIRECT then 64 + k else 0)
    else
      var b := 76 + 269 * (i - 1) + k;
      if IsFree(b) then 0 else b
  }

  /** The file and the slot of block `b`, from block 76 on. */
  function FileOf(b: nat): nat
    requires 76 <= b
  {
    1 + (b - 76) / 269
  }

  function PlaceOf(b: nat): nat
    requires 76 <= b
  {
    (b - 76) % 269
  }

  lemma {:induction false} PlaceIs(i: nat, k: nat)
    requires 0 < i && k < NSLOTS
    ensures FileOf(76 + 269 * (i - 1) + k) == i && PlaceOf(76 + 269 * (i - 1) + k) == k
  {
  }

  lemma {:induction false} PlaceBack(b: nat)
    requires 76 <= b < DISK
    ensures 0 < FileOf(b) < NFILES && PlaceOf(b) < NSLOTS && b == 76 + 269 * (FileOf(b) - 1) + PlaceOf(b)
  {
  }

  function OwnerOf(b: nat): Slot
    requires META <= b < DISK
  {
    if b < 76 then Slot(0, b - 64) else Slot(FileOf(b), PlaceOf(b))
  }

  lemma {:induction false} OwnerIs(i: nat, k: nat)
    requires i < NFILES && k < NSLOTS && BlockAt(i, k) != 0
    ensures META <= BlockAt(i, k) && !IsFree(BlockAt(i, k)) && OwnerOf(BlockAt(i, k)) == Slot(i, k)
  {
    hide FileOf, PlaceOf;
    if i > 0 { PlaceIs(i, k); }
  }

  lemma {:induction false} BlockIs(b: nat)
    requires META <= b < DISK && !IsFree(b)
    ensures var s := OwnerOf(b); s.inum < NFILES && s.k < NSLOTS && BlockAt(s.inum, s.k) == b
  {
    hide FileOf, PlaceOf;
    if b >= 76 { PlaceBack(b); }
  }

  /** The bytes of a number below 2^16, little-endian. */
  function ByteOf(w: nat, n: nat): Byte
    requires w < 0x1_0000
  {
    if n == 0 then w % 256 else if n == 1 then w / 256 else 0
  }

  /** The indirect block of file `i`. */
  function Words(i: nat): (b: Block)
    requires i < NFILES
    ensures |b| == BSIZE
  {
    seq(BSIZE, x requires 0 <= x < BSIZE => ByteOf(BlockAt(i, NDIRECT + 1 + x / 4), x % 4))
  }

  lemma {:induction false} WordsAre(i: nat, j: nat)
    requires i < NFILES && j < NINDIRECT
    ensures Word(Words(i), j) == BlockAt(i, NDIRECT + 1 + j)
  {
    hide BlockAt;
    assert (4 * j) / 4 == j && (4 * j + 1) / 4 == j && (4 * j + 2) / 4 == j && (4 * j + 3) / 4 == j;
    var w, b := BlockAt(i, NDIRECT + 1 + j), Words(i);
    assert b[4 * j] == w % 256 && b[4 * j + 1] == w / 256 && b[4 * j + 2] == 0 && b[4 * j + 3] == 0;
  }

  function DataAt(b: nat): (r: Block)
    requires b < DISK
    ensures |r| == BSIZE
  {
    if b >= 76 && PlaceOf(b) == NDIRECT then Words(FileOf(b)) else NoData()
  }

  function Data(): (d: seq<Block>)
    ensures |d| == DISK && forall b :: 0 <= b < DISK ==> d[b] == DataAt(b)
  {
    seq(DISK, b requires 0 <= b < DISK => DataAt(b))
  }

  function Bitmap(): (u: seq<bool>)
    ensures |u| == DISK && forall b :: 0 <= b < DISK ==> u[b] == !IsFree(b)
  {
    seq(DISK, b requires 0 <= b < DISK => !IsFree(b))
  }

  /** File 0 ends with the first byte of its last direct block. */
  function InodeAt(i: nat): (r: Inode)
    requires i < NFILES
    ensures |r.addrs| == NDIRECT + 1 && forall k :: 0 <= k <= NDIRECT ==> r.addrs[k] == BlockAt(i, k)
  {
    Inode(seq(NDIRECT + 1, k requires 0 <= k <= NDIRECT => BlockAt(i, k)), if i == 0 then 11265 else 267 * BSIZE)
  }

  function Inodes(): (r: seq<Inode>)
    ensures |r| == NFILES && forall i :: 0 <= i < NFILES ==> r[i] == InodeAt(i)
  {
    seq(NFILES, i requires 0 <= i < NFILES => InodeAt(i))
  }

  ghost function Owners(): (own: map<nat, Slot>)
    ensures forall b :: b in own <==> META <= b < DISK && !IsFree(b)
    ensures forall b :: b in own ==> own[b] == OwnerOf(b)
  {
    map b: nat | META <= b < DISK && !IsFree(b) :: OwnerOf(b)
  }

  lemma {:induction false} IndirectAt(i: nat)
    requires 0 < i < NFILES
    ensures BlockAt(i, NDIRECT) != 0 && DataAt(BlockAt(i, NDIRECT)) == Words(i)
  {
    hide Words, FileOf, PlaceOf;
    PlaceIs(i, NDIRECT);
    NotFree(i, NDIRECT);
  }

  lemma {:induction false} NotFree(i: nat, k: nat)
    requires 0 < i < NFILES && k < 268
    ensures BlockAt(i, k) == 76 + 269 * (i - 1) + k
  {
  }

  lemma {:induction false} FileZero(k: nat)
    requires k < NSLOTS
    ensures BlockAt(0, k) == if k < NDIRECT then 64 + k else 0
  {
  }

  lemma {:induction false} AddrIs(i: nat, k: nat)
    requires i < NFILES && k < NSLOTS
    ensures Addr(Data(), Inodes(), Slot(i, k)) == BlockAt(i, k)
  {
    hide BlockAt, Words, DataAt, Word;
    FileZero(k);
    FileZero(NDIRECT);
    if k > NDIRECT && i > 0 {
      IndirectAt(i);
      WordsAre(i, k - NDIRECT - 1);
    }
  }

  lemma {:induction false} DiskOk()
    ensures FsOk(Layout(), Data(), Bitmap(), Inodes(), Owners())
  {
    forall s ensures SlotOk(Data(), Inodes(), Owners(), s) {
      if IsSlot(Inodes(), s) {
        AddrIs(s.inum, s.k);
        if BlockAt(s.inum, s.k) != 0 { OwnerIs(s.inum, s.k); }
      }
    }
    forall b: nat ensures BlockOk(Layout(), Data(), Bitmap(), Inodes(), Owners(), b) {
      if b in Owners() {
        BlockIs(b);
        AddrIs(OwnerOf(b).inum, OwnerOf(b).k);
      }
    }
  }

  // ---- The write ----

  /** Any 3072 bytes go to position 11265, which is in file block 11 and in three blocks that
      file 0 does not have, with an indirect block that it does not have either. */
  const OFF: nat := 11265
  const CHUNK: nat := 3072

  function Before(): (c: seq<Byte>)
    ensures |c| == OFF
  {
    seq(OFF, _ => 0)
  }

  lemma {:induction false} BeforeHolds()
    ensures Holds(Data(), Inodes(), 0, Before())
  {
    forall x: nat | x < OFF ensures ByteIs(Data(), Inodes(), 0, x, Before()[x]) {
      AddrIs(0, x / 1024);
    }
  }

  /** What is allocated is free before. */
  lemma {:induction false} FreshIsFree(data: seq<Block>, used: seq<bool>, ino: seq<Inode>, own: map<nat, Slot>, b: nat)
    requires FsOk(Layout(), data, used, ino, own) && b in Fresh(Owners(), own)
    ensures IsFree(b)
  {
    assert BlockOk(Layout(), data, used, ino, own, b);
  }

  /** A write that stops early has come to three slots at most. */
  lemma {:induction false} TakesFew(own: map<nat, Slot>, r: nat)
    requires OwnOk(own, 0) && r < CHUNK && GrewTo(Owners(), own, 0, OFF, r)
    ensures |Fresh(Owners(), own)| <= 3
  {
    var first, hi := if r > 0 then 12 else 11, 11 + Blocks(OFF, r);
    assert first <= hi <= 14 && (r > 0 || hi == 11);
    hide OwnOk, Grew, Touches, Ind, Fresh, Owners;
    FreshWhere(Owners(), own, 0, first, first, hi);
    TouchesBound(own, 0, first, hi);
    IndBound(own, 0);
    CardSum(Touches(own, 0, first, hi), Ind(own, 0));
    CardMono(Fresh(Owners(), own), Touches(own, 0, first, hi) + Ind(own, 0));
  }

  lemma {:induction false} OneLeft(taken: set<nat>) returns (b: nat)
    requires |taken| <= 3
    ensures IsFree(b) && b !in taken
  {
    var four := {344, 8414, 16484, 24823};
    assert |four| == 4;
    if four <= taken {
      CardMono(four, taken);
      assert false;
    }
    b :| b in four && b !in taken;
  }

  /** It leaves a block free. */
  lemma {:induction false} NeverFull(data: seq<Block>, used: seq<bool>, ino: seq<Inode>, own: map<nat, Slot>, r: nat)
    requires FsOk(Layout(), data, used, ino, own) && r < CHUNK && GrewTo(Owners(), own, 0, OFF, r)
    ensures exists x :: 0 <= x < |used| && !used[x]
  {
    OwnOkOf(Layout(), data, used, ino, own, 0);
    TakesFew(own, r);
    var b := OneLeft(Fresh(Owners(), own));
    hide GrewTo, OwnOk;
    assert BlockOk(Layout(), data, used, ino, own, b);
    assert !used[b];
  }

  /** File 0 had direct blocks only. */
  lemma {:induction false} NewSlot(own: map<nat, Slot>, b: nat)
    requires forall x :: x in Owners() ==> x in own && own[x] == Owners()[x]
    requires b in own && own[b].inum == 0 && own[b].k >= NDIRECT
    ensures b in Fresh(Owners(), own)
  {
    assert forall x :: x in Owners() && Owners()[x].inum == 0 ==> Owners()[x].k < NDIRECT;
  }

  /** The block of a slot of file 0 that it did not have. */
  lemma {:induction false} Filled(data: seq<Block>, used: seq<bool>, ino: seq<Inode>, own: map<nat, Slot>, bn: nat)
    returns (b: nat)
    requires FsOk(Layout(), data, used, ino, own) && 0 < |ino| && NDIRECT <= bn < MAXFILE
             && FileBlock(data, ino, 0, bn) != []
    requires forall x :: x in Owners() ==> x in own && own[x] == Owners()[x]
    ensures b in Fresh(Owners(), own) && own[b] == Slot(0, bn + 1)
  {
    b := Addr(data, ino, Slot(0, bn + 1));
    assert SlotOk(data, ino, own, Slot(0, bn + 1)) && BlockOk(Layout(), data, used, ino, own, b);
    NewSlot(own, b);
  }

  /** All four free blocks are taken: three for the data and one for the indirect block. */
  lemma {:induction false} AllTaken(data: seq<Block>, used: seq<bool>, ino: seq<Inode>, own: map<nat, Slot>)
    requires FsOk(Layout(), data, used, ino, own) && 0 < |ino| && Grew(Owners(), own, 0, 12, 15)
    requires FileBlock(data, ino, 0, 12) != [] && FileBlock(data, ino, 0, 13) != [] && FileBlock(data, ino, 0, 14) != []
    ensures Fresh(Owners(), own) == {344, 8414, 16484, 24823}
    ensures WriteLog(Layout(), Owners(), own, 0, 11, 15) == {75, 344, 8414, 16484, 24823, 40, 41, 42, 43}
  {
    OwnOkOf(Layout(), data, used, ino, own, 0);
    var taken := Fresh(Owners(), own);
    var x := Filled(data, used, ino, own, 12);
    var y := Filled(data, used, ino, own, 13);
    var z := Filled(data, used, ino, own, 14);
    var p :| p in Ind(own, 0);
    NewSlot(own, p);
    forall b | b in taken ensures IsFree(b) { FreshIsFree(data, used, ino, own, b); }
    assert x != y && x != z && y != z && p != x && p != y && p != z;
    hide FsOk, Fresh, Owners, Grew, OwnOk, Ind, WriteLog;
    FourOfFour(x, y, z, p, taken);
    TakenLog(own, x);
  }

  lemma {:induction false} FourOfFour(x: nat, y: nat, z: nat, p: nat, b: set<nat>)
    requires x in b && y in b && z in b && p in b && x != y && x != z && y != z && p != x && p != y && p != z
    requires forall c :: c in b ==> IsFree(c)
    ensures b == {344, 8414, 16484, 24823}
  {
  }

  lemma {:induction false} TakenLog(own: map<nat, Slot>, x: nat)
    requires Grew(Owners(), own, 0, 12, 15) && Fresh(Owners(), own) == {344, 8414, 16484, 24823}
    requires x in Fresh(Owners(), own) && own[x] == Slot(0, 13)
    ensures WriteLog(Layout(), Owners(), own, 0, 11, 15) == {75, 344, 8414, 16484, 24823, 40, 41, 42, 43}
  {
    var taken := Fresh(Owners(), own);
    assert GaveWord(Owners(), own, 0);
    forall b | b in Touches(own, 0, 11, 15) + Ind(own, 0) ensures b == 75 || b in taken {
      if b in Owners() { assert own[b] == OwnerOf(b); }
    }
    assert 75 in Touches(own, 0, 11, 15) by { assert 75 in Owners() && own[75] == OwnerOf(75); }
    assert Bits(Layout(), taken) == {40, 41, 42, 43} by {
      assert BitmapBlock(Layout(), 344) == 40 && BitmapBlock(Layout(), 8414) == 41;
      assert BitmapBlock(Layout(), 16484) == 42 && BitmapBlock(Layout(), 24823) == 43;
      assert 40 in Bits(Layout(), taken) && 41 in Bits(Layout(), taken) && 42 in Bits(Layout(), taken)
        && 43 in Bits(Layout(), taken);
    }
    assert 75 !in Ind(own, 0);
  }

  /** The file blocks that hold a file of this length are there. */
  lemma {:induction false} NoHole(data: seq<Block>, ino: seq<Inode>, c: seq<Byte>, bn: nat)
    requires 0 < |ino| && |ino[0].addrs| == NDIRECT + 1 && Starts(data, ino, 0, c) && bn * 1024 < |c|
    ensures bn < MAXFILE && FileBlock(data, ino, 0, bn) != []
  {
    assert ByteIs(data, ino, 0, bn * 1024, c[bn * 1024]);
  }

  lemma {:induction false} Appends(c: seq<Byte>, src: seq<Byte>)
    requires |c| == OFF && |src| == CHUNK
    ensures Splice(c, OFF, src[..0]) == c && |Splice(c, OFF, src[..CHUNK])| == OFF + CHUNK
  {
  }

  /** What the outcome of the write says about the disk. */
  lemma {:induction false} Outcome(f: Fs, c: seq<Byte>, src: seq<Byte>, r: int)
    requires FsOk(Layout(), f.data, f.used, f.ino, f.own) && |c| == OFF && |src| == CHUNK && 0 <= r <= CHUNK
    requires Written(f, 0, c, OFF, src, r)
    requires (r < CHUNK ==> FullAt(f.data, f.used, f.ino, 0, OFF + r))
             && GrewTo(Owners(), f.own, 0, OFF, r)
    requires f.logged == WriteLog(Layout(), Owners(), f.own, 0, 11, 11 + Blocks(OFF, r)) + {32}
    ensures r == CHUNK && f.logged == {75, 344, 8414, 16484, 24823, 40, 41, 42, 43, 32}
  {
    if r < CHUNK {
      NeverFull(f.data, f.used, f.ino, f.own, r);
      assert false;
    }
    assert Blocks(OFF, CHUNK) == 4;
    hide FsOk, Holds, WriteLog, FullAt, Splice;
    Appends(c, src);
    var c' := Splice(c, OFF, src[..r]);
    HoldsStarts(f.data, f.ino, c');
    NoHole(f.data, f.ino, c', 12);
    NoHole(f.data, f.ino, c', 13);
    NoHole(f.data, f.ino, c', 14);
    AllTaken(f.data, f.used, f.ino, f.own);
  }

  lemma {:induction false} HoldsStarts(data: seq<Block>, ino: seq<Inode>, c: seq<Byte>)
    requires 0 < |ino| && |ino[0].addrs| == NDIRECT + 1 && Holds(data, ino, 0, c)
    ensures Starts(data, ino, 0, c)
  {
  }

  lemma {:induction false} BeforeWritten(src: seq<Byte>)
    requires Holds(Data(), Inodes(), 0, Before()) && |src| == CHUNK
    ensures Written(Fs(Data(), Bitmap(), Inodes(), Owners(), {}), 0, Before(), OFF, src, 0)
  {
    hide Holds, Splice;
    Appends(Before(), src);
  }

  /** The write succeeds in one transaction, which logs exactly these ten blocks: the old data
      block, the three new ones and the indirect block, four blocks of the bitmap, and the
      inode's block. */
  method FullTransaction(src: seq<Byte>) returns (fs: FileSystem, r: int)
    requires |src| == CHUNK
    ensures r == CHUNK && fs.logged == {75, 344, 8414, 16484, 24823, 40, 41, 42, 43, 32} && |fs.logged| == MAXOPBLOCKS
  {
    hide FsOk, Starts, Holds, Splice, Blocks, WriteLog, GrewTo, FullAt, Written, ChunkStep, OthersKept;
    DiskOk();
    BeforeHolds();
    BeforeWritten(src);
    fs := new FileSystem.FromDisk(Layout(), Data(), Bitmap(), Inodes(), Owners());
    ghost var c := Before();
    r := fs.WriteChunk(0, OFF, src, 0, CHUNK, c);
    Outcome(fs.Now(), c, src, r);
  }
}
