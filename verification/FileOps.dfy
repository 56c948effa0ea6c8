/** balloc, bfree, bmap, itrunc, readi, writei and the loop of filewrite, against files that
    are plain byte sequences. */
module FileOps {
  import opened FileLog
  import opened FileModel
  import opened Types

  const BPB: nat := 8192

  // ---- Byte sequences ----

  /** `c` with the bytes `s` at position `off`. */
  function Splice(c: seq<Byte>, off: nat, s: seq<Byte>): (r: seq<Byte>)
    requires off <= |c|
    ensures |r| == if off + |s| > |c| then off + |s| else |c|
    ensures forall x :: 0 <= x < |r| ==> r[x] == if off <= x < off + |s| then s[x - off] else c[x]
  {
    if off + |s| > |c| then c[..off] + s else c[..off] + s + c[off + |s|..]
  }

  lemma {:induction false} SpliceMore(c: seq<Byte>, off: nat, s: seq<Byte>, t: seq<Byte>)
    requires off <= |c|
    ensures Splice(Splice(c, off, s), off + |s|, t) == Splice(c, off, s + t)
  {
  }

  /** The first bytes of the file are `c`. */
  ghost predicate Starts(data: seq<Block>, ino: seq<Inode>, i: nat, c: seq<Byte>)
    requires i < |ino| && |ino[i].addrs| == NDIRECT + 1
  {
    && |c| <= MAXFILE * BSIZE
    && forall x: nat :: x < |c| ==> ByteIs(data, ino, i, x, c[x])
  }

  ghost predicate ByteIs(data: seq<Block>, ino: seq<Inode>, i: nat, x: nat, v: Byte)
    requires i < |ino| && |ino[i].addrs| == NDIRECT + 1 && x < MAXFILE * BSIZE
  {
    var blk := FileBlock(data, ino, i, x / 1024);
    |blk| == BSIZE && blk[x % 1024] == v
  }

  /** The file holds exactly `c`. */
  ghost predicate Holds(data: seq<Block>, ino: seq<Inode>, i: nat, c: seq<Byte>)
    requires i < |ino| && |ino[i].addrs| == NDIRECT + 1
  {
    ino[i].size == |c| && Starts(data, ino, i, c)
  }

  /** One round of writei. */
  lemma {:induction false} SpliceBlock(sb: Super, data: seq<Block>, ino: seq<Inode>, data': seq<Block>,
                                       ino': seq<Inode>, i: nat, c: seq<Byte>, pos: nat, s: seq<Byte>, blk: Block)
    requires i < |ino| && |ino[i].addrs| == NDIRECT + 1 && Starts(data, ino, i, c)
    requires pos <= |c| && pos + |s| <= MAXFILE * BSIZE && 0 < |s| && pos % 1024 + |s| <= 1024
    requires |blk| == BSIZE
    requires FileBlock(data, ino, i, pos / 1024) != [] ==> FileBlock(data, ino, i, pos / 1024) == blk
    requires OneBlock(sb, data, ino, data', ino', i, pos / 1024, Splice(blk, pos % 1024, s))
             && |ino'[i].addrs| == NDIRECT + 1
    ensures Starts(data', ino', i, Splice(c, pos, s))
  {
    var r, blk' := Splice(c, pos, s), Splice(blk, pos % 1024, s);
    hide Splice, FileBlock;
    forall x: nat | x < |r| ensures ByteIs(data', ino', i, x, r[x]) {
      InBlock(pos, |s|, x);
      assert x < |c| ==> ByteIs(data, ino, i, x, c[x]);
      var b := x / 1024;
      assert FileBlock(data', ino', i, b) == if b == pos / 1024 then blk' else FileBlock(data, ino, i, b);
      if b != pos / 1024 { assert r[x] == c[x]; }
    }
  }

  lemma {:induction false} InBlock(pos: nat, m: nat, x: nat)
    requires pos % 1024 + m <= 1024
    ensures pos <= x < pos + m <==> x / 1024 == pos / 1024 && pos % 1024 <= x % 1024 < pos % 1024 + m
    ensures x / 1024 == pos / 1024 ==> x - pos == x % 1024 - pos % 1024
  {
  }

  /** Files other than `i` hold the same as before. */
  ghost predicate OthersKept(data: seq<Block>, ino: seq<Inode>, data': seq<Block>, ino': seq<Inode>, i: nat) {
    && |ino'| == |ino|
    && (forall j :: 0 <= j < |ino| && j != i ==> ino'[j] == ino[j])
    && (forall j: nat, b: nat ::
          j < |ino| && j != i && b < MAXFILE && |ino[j].addrs| == NDIRECT + 1 ==>
            FileBlock(data', ino', j, b) == FileBlock(data, ino, j, b))
  }

  // ---- Blocks of a range ----

  /** The number of blocks that bytes off..off+n-1 lie in. */
  function Blocks(off: nat, n: nat): (r: nat)
    ensures if n == 0 then r == 0 else off / 1024 + r == (off + n - 1) / 1024 + 1
  {
    if n == 0 then 0 else (off % 1024 + n + 1023) / 1024
  }

  /** How many of the `left` bytes at `pos` lie in the block of `pos`. */
  function Part(pos: nat, left: nat): (m: nat)
    requires left > 0
    ensures 0 < m <= left && pos % 1024 + m <= 1024 && (m == left || (pos + m) % 1024 == 0)
  {
    if left < 1024 - pos % 1024 then left else 1024 - pos % 1024
  }

  lemma {:induction false} BlocksNext(off: nat, tot: nat, n: nat)
    requires tot < n && (tot == 0 || (off + tot) % 1024 == 0)
    ensures var m := Part(off + tot, n - tot);
            Blocks(off, tot + m) == Blocks(off, tot) + 1 && Blocks(off, tot + m) <= Blocks(off, n)
    ensures tot > 0 ==> Blocks(off, tot) > 0
  {
  }

  lemma {:induction false} BlocksAt(off: nat, tot: nat)
    requires tot == 0 || (off + tot) % 1024 == 0
    ensures (off + tot) / 1024 == off / 1024 + Blocks(off, tot)
  {
  }

  lemma {:induction false} BlocksBound(off: nat, tot: nat, n: nat)
    requires tot <= n && Blocks(off, tot) <= Blocks(off, n) && (tot > 0 ==> Blocks(off, tot) > 0)
    ensures 2 * Blocks(off, tot) + 2 - (if off % 1024 != 0 && tot > 0 then 1 else 0)
              <= 2 * Blocks(off, n) + 2 - (if off % 1024 != 0 && n > 0 then 1 else 0)
  {
  }

  /** What writei logs for file `i` from file block `lo` on: the data blocks that it has come to
      and what the allocations log. */
  ghost function WriteLog(sb: Super, own0: map<nat, Slot>, own: map<nat, Slot>, i: nat, lo: nat, hi: nat): set<nat> {
    Touches(own, i, lo, hi) + AllocLog(sb, own0, own, i)
  }

  /** The disk is full, and the file has no block for position `pos`. */
  ghost predicate FullAt(data: seq<Block>, used: seq<bool>, ino: seq<Inode>, i: nat, pos: nat)
    requires i < |ino| && |ino[i].addrs| == NDIRECT + 1
  {
    (forall x :: 0 <= x < |used| ==> used[x]) && pos < MAXFILE * BSIZE && FileBlock(data, ino, i, pos / 1024) == []
  }

  /** The parts of a file system that bmap changes. */
  datatype Fs = Fs(data: seq<Block>, used: seq<bool>, ino: seq<Inode>, own: map<nat, Slot>, logged: set<nat>)

  ghost predicate FsIs(sb: Super, f: Fs) {
    FsOk(sb, f.data, f.used, f.ino, f.own) && |f.data| == sb.size
  }

  /** Every block of data or of the bitmap that has changed is logged. */
  ghost predicate Recorded(sb: Super, f: Fs, f': Fs) {
    && |f'.data| == |f.data| && |f'.used| == |f.used| && f.logged <= f'.logged
    && (forall b :: 0 <= b < |f.data| && f'.data[b] != f.data[b] ==> b in f'.logged)
    && (forall b :: 0 <= b < |f.used| && f'.used[b] != f.used[b] ==> BitmapBlock(sb, b) in f'.logged)
  }

  lemma {:induction false} RecordedBoth(sb: Super, f: Fs, f1: Fs, f2: Fs)
    requires Recorded(sb, f, f1) && Recorded(sb, f1, f2)
    ensures Recorded(sb, f, f2)
  {
  }

  lemma {:induction false} RecordedNone(sb: Super, f: Fs, own: map<nat, Slot>, ino: seq<Inode>)
    ensures Recorded(sb, f, f.(own := own, ino := ino))
  {
  }

  lemma {:induction false} RecordedMore(sb: Super, f: Fs, f1: Fs, ino: seq<Inode>, x: nat)
    requires Recorded(sb, f, f1)
    ensures Recorded(sb, f, f1.(ino := ino, logged := f1.logged + {x}))
  {
  }

  lemma {:induction false} RecordedSame(sb: Super, f: Fs, f1: Fs, own: map<nat, Slot>)
    requires Recorded(sb, f, f1)
    ensures Recorded(sb, f, f1.(own := own))
  {
  }

  lemma {:induction false} RecordedFree(sb: Super, f: Fs, f1: Fs, a: nat, ino: seq<Inode>)
    requires Recorded(sb, f, f1) && a < |f1.used|
    ensures Recorded(sb, f, f1.(used := f1.used[a := false], ino := ino, logged := f1.logged + {BitmapBlock(sb, a)}))
  {
  }

  lemma {:induction false} RecordedData(sb: Super, f: Fs, f': Fs, a: nat, b: Block)
    requires a < |f.data| && f'.data == f.data[a := b] && f'.used == f.used && f'.logged == f.logged + {a}
    ensures Recorded(sb, f, f')
  {
  }

  ghost predicate NoneFree(f: Fs) {
    forall x :: 0 <= x < |f.used| ==> f.used[x]
  }

  /** The address in slot `k` of inode `i`, direct or of the indirect block, is `a` now: it was
      before, or a free block was given to the slot, or there was none. */
  ghost predicate GotDirect(sb: Super, f: Fs, f': Fs, i: nat, k: nat, a: nat) {
    && FsIs(sb, f) && FsIs(sb, f') && i < |f.ino| == |f'.ino| && k <= NDIRECT && a < sb.size
    && |f.ino[i].addrs| == |f'.ino[i].addrs| == NDIRECT + 1 && f'.ino[i].addrs == f.ino[i].addrs[k := a]
    && (if a == f.ino[i].addrs[k] then f' == f && (a == 0 ==> NoneFree(f))
        else
          && f.ino[i].addrs[k] == 0 && OneAddr(f.data, f.ino, f'.data, f'.ino, Slot(i, k), a)
          && OneBlock(sb, f.data, f.ino, f'.data, f'.ino, i, BlockOf(k), NoData())
          && a !in f.own && f'.own == f.own[a := Slot(i, k)])
    && Recorded(sb, f, f') && f'.logged == f.logged + AllocLog(sb, f.own, f'.own, i)
  }

  /** The same for word `j` of the indirect block. */
  ghost predicate GotWord(sb: Super, f: Fs, f': Fs, i: nat, j: nat, a: nat) {
    && FsIs(sb, f) && FsIs(sb, f') && i < |f.ino| && f'.ino == f.ino && j < NINDIRECT && a < sb.size
    && |f.ino[i].addrs| == NDIRECT + 1 && f.ino[i].addrs[NDIRECT] != 0
    && a == Addr(f'.data, f'.ino, Slot(i, NDIRECT + 1 + j))
    && (if a == Addr(f.data, f.ino, Slot(i, NDIRECT + 1 + j)) then f' == f && (a == 0 ==> NoneFree(f))
        else
          && Addr(f.data, f.ino, Slot(i, NDIRECT + 1 + j)) == 0
          && OneBlock(sb, f.data, f.ino, f'.data, f'.ino, i, NDIRECT + j, NoData())
          && a !in f.own && f'.own == f.own[a := Slot(i, NDIRECT + 1 + j)])
    && Recorded(sb, f, f') && f'.logged == f.logged + AllocLog(sb, f.own, f'.own, i)
  }

  /** What bmap of block `bn` of file `i` has done, with result `a`. */
  ghost predicate BmapDone(sb: Super, f: Fs, f': Fs, i: nat, bn: nat, a: nat) {
    && FsIs(sb, f) && FsIs(sb, f') && bn < MAXFILE && i < |f.ino| == |f'.ino| && a < sb.size == |f'.data|
    && |f.ino[i].addrs| == |f'.ino[i].addrs| == NDIRECT + 1
    && var was := FileBlock(f.data, f.ino, i, bn);
       && a == Addr(f'.data, f'.ino, Slot(i, SlotOf(bn))) && (a == 0 ==> NoneFree(f'))
       && OneBlock(sb, f.data, f.ino, f'.data, f'.ino, i, bn, if was == [] && a != 0 then NoData() else was)
       && (was != [] ==> a != 0 && f' == f) && Recorded(sb, f, f')
       && Grew(f.own, f'.own, i, bn, bn + 1) && f'.logged == f.logged + AllocLog(sb, f.own, f'.own, i)
  }

  /** What a round of writei has done that was to write `s` at `pos` to a file that begins with
      `c`; it fails if the disk is full. */
  ghost predicate RoundDone(sb: Super, f: Fs, f': Fs, i: nat, c: seq<Byte>, pos: nat, s: seq<Byte>, ok: bool) {
    && i < |f.ino| == |f'.ino| && |f'.ino[i].addrs| == NDIRECT + 1 && FsIs(sb, f') && pos <= |c|
    && f'.ino[i].size == f.ino[i].size && OthersKept(f.data, f.ino, f'.data, f'.ino, i) && Recorded(sb, f, f')
    && (if ok then Starts(f'.data, f'.ino, i, Splice(c, pos, s))
        else Starts(f'.data, f'.ino, i, c) && FullAt(f'.data, f'.used, f'.ino, i, pos))
    && var bn := pos / 1024;
       && Grew(f.own, f'.own, i, bn, if ok && pos % 1024 == 0 then bn + 1 else bn)
       && f'.logged == f.logged + WriteLog(sb, f.own, f'.own, i, bn, if ok then bn + 1 else bn)
  }

  /** What the loop of writei has done once `tot` bytes are written. */
  ghost predicate LoopDone(sb: Super, f: Fs, f': Fs, i: nat, c: seq<Byte>, off: nat, src: seq<Byte>, tot: nat) {
    && FsIs(sb, f') && i < |f.ino| == |f'.ino| && |f'.ino[i].addrs| == NDIRECT + 1 && tot <= |src| && off <= |c|
    && Starts(f'.data, f'.ino, i, Splice(c, off, src[..tot])) && f'.ino[i].size == |c|
    && OthersKept(f.data, f.ino, f'.data, f'.ino, i) && Recorded(sb, f, f')
    && Blocks(off, tot) <= Blocks(off, |src|) && (tot > 0 ==> Blocks(off, tot) > 0)
    && GrewTo(f.own, f'.own, i, off, tot)
    && f'.logged == f.logged + WriteLog(sb, f.own, f'.own, i, off / 1024, off / 1024 + Blocks(off, tot))
  }

  /** off + n < off, in 32 bits. */
  predicate Overflows(off: nat, n: nat)
    requires off < UINT && n < UINT
    ensures Overflows(off, n) <==> off + n >= UINT
  {
    (off + n) % UINT < off
  }

  class FileSystem {
    const sb: Super
    var data: seq<Block>
    var used: seq<bool>
    var ino: seq<Inode>
    var dinode: seq<Inode>
    ghost var own: map<nat, Slot>
    var logged: set<nat>      // the blocks that the transaction has passed to log_write

    ghost predicate Valid()
      reads this
    {
      FsOk(sb, data, used, ino, own) && |dinode| == |ino|
    }

    ghost function Now(): Fs
      reads this
    {
      Fs(data, used, ino, own, logged)
    }

    /** The file system that mkfs makes, with empty inodes. */
    constructor (sb: Super, ninodes: nat)
      requires 0 < sb.nmeta <= sb.size < UINT
      ensures Valid() && this.sb == sb && |ino| == ninodes && own == map[]
      ensures forall i :: 0 <= i < ninodes ==> Holds(data, ino, i, [])
    {
      this.sb := sb;
      data := seq(sb.size, _ => NoData());
      used := seq(sb.size, b => b < sb.nmeta);
      ino := seq(ninodes, _ => NoInode());
      dinode := seq(ninodes, _ => NoInode());
      own := map[];
      logged := {};
    }

    /** A file system found on a disk. */
    constructor FromDisk(sb: Super, data: seq<Block>, used: seq<bool>, ino: seq<Inode>, ghost own: map<nat, Slot>)
      requires FsOk(sb, data, used, ino, own)
      ensures Valid() && this.sb == sb && Now() == Fs(data, used, ino, own, {}) && dinode == ino
    {
      this.sb := sb;
      this.data := data;
      this.used := used;
      this.ino := ino;
      this.dinode := ino;
      this.own := own;
      this.logged := {};
    }

    /** balloc: the first block not in use, zeroed, or 0. */
    method Balloc() returns (b: nat)
      requires Valid()
      modifies this`data, this`used, this`logged
      ensures b == 0 ==> unchanged(this) && forall x :: 0 <= x < |used| ==> used[x]
      ensures b != 0 ==>
        && b < sb.size && !old(used)[b] && (forall x :: 0 <= x < b ==> old(used)[x])
        && used == old(used)[b := true] && data == old(data)[b := NoData()]
        && logged == old(logged) + {BitmapBlock(sb, b), b}
    {
      assert BlockOk(sb, data, used, ino, own, 0);
      b := 0;
      while b < sb.size
        invariant unchanged(this) && forall x :: 0 <= x < b && x < |used| ==> used[x]
      {
        var bi := 0;
        while bi < BPB && b + bi < sb.size
          invariant 0 <= bi <= BPB && unchanged(this) && forall x :: 0 <= x < b + bi && x < |used| ==> used[x]
        {
          if !used[b + bi] {
            b := b + bi;
            used := used[b := true];
            data := data[b := NoData()];
            logged := logged + {BitmapBlock(sb, b)} + {b};
            return;
          }
          bi := bi + 1;
        }
        b := b + BPB;
      }
      b := 0;
    }

    /** bfree of a block in use; it panics on a free one. */
    method Bfree(b: nat)
      requires b < |used| && used[b]
      modifies this`used, this`logged
      ensures used == old(used)[b := false] && logged == old(logged) + {BitmapBlock(sb, b)}
    {
      used := used[b := false];
      logged := logged + {BitmapBlock(sb, b)};
    }

    /** bmap: the address of block `bn`, allocating it if needed; 0 when the disk is full. */
    method Bmap(i: nat, bn: nat) returns (a: nat)
      requires Valid() && i < |ino| && bn < MAXFILE
      modifies this`data, this`used, this`ino, this`own, this`logged
      ensures Valid() && BmapDone(sb, old(Now()), Now(), i, bn, a)
    {
      hide FsOk, GotDirect, GotWord, BmapDone;
      ghost var f := Now();
      if bn < NDIRECT {
        a := GetDirect(i, bn);
        DirectDone(sb, f, Now(), i, bn, a);
        return;
      }
      var b := GetDirect(i, NDIRECT);
      ghost var f1 := Now();
      GotDirectIs(sb, f, f1, i, NDIRECT, b);
      if b == 0 {
        NoIndirectDone(sb, f, i, bn);
        return 0;
      }
      a := GetWord(i, bn - NDIRECT);
      IndirectDone(sb, f, f1, Now(), i, bn, b, a);
    }

    /** The address in a direct slot or of the indirect block. */
    method GetDirect(i: nat, k: nat) returns (a: nat)
      requires Valid() && i < |ino| && k <= NDIRECT
      modifies this`data, this`used, this`ino, this`own, this`logged
      ensures Valid() && GotDirect(sb, old(Now()), Now(), i, k, a)
    {
      a := ino[i].addrs[k];
      assert SlotOk(data, ino, own, Slot(i, k)) && BlockOk(sb, data, used, ino, own, a);
      LogNone(sb, own, i, 0);
      if a == 0 {
        a := Balloc();
        if a == 0 { return; }
        assert BlockOk(sb, old(data), old(used), ino, own, a);
        GiveDirectOk(sb, old(data), old(used), ino, own, i, k, a);
        LogDirect(sb, own, i, k, a);
        ino := ino[i := ino[i].(addrs := ino[i].addrs[k := a])];
        own := own[a := Slot(i, k)];
      }
    }

    /** The address in a word of the indirect block. */
    method GetWord(i: nat, j: nat) returns (a: nat)
      requires Valid() && i < |ino| && j < NINDIRECT && ino[i].addrs[NDIRECT] != 0
      modifies this`data, this`used, this`own, this`logged
      ensures Valid() && GotWord(sb, old(Now()), Now(), i, j, a)
    {
      ghost var f := Now();
      WordThere(sb, f, i, j);
      hide FsOk, GotWord, Recorded;
      var p := ino[i].addrs[NDIRECT];
      a := Word(data[p], j);
      if a == 0 {
        a := Balloc();
        if a == 0 { return; }
        WordGiven(sb, f, i, j, a);
        data := data[p := PutWord(data[p], j, a)];
        logged := logged + {p};
        own := own[a := Slot(i, NDIRECT + 1 + j)];
      }
    }

    /** One round of writei, at position `pos`. */
    method WriteRound(i: nat, pos: nat, s: seq<Byte>, ghost c: seq<Byte>) returns (ok: bool)
      requires Valid() && i < |ino| && |ino[i].addrs| == NDIRECT + 1 && Starts(data, ino, i, c) && pos <= |c|
      requires 0 < |s| && pos % 1024 + |s| <= 1024 && pos + |s| <= MAXFILE * BSIZE
      modifies this`data, this`used, this`ino, this`own, this`logged
      ensures Valid() && RoundDone(sb, old(Now()), Now(), i, c, pos, s, ok)
    {
      hide FsOk, Starts, BmapDone, RoundDone;
      ghost var f := Now();
      var a := Bmap(i, pos / 1024);
      ghost var f1 := Now();
      BmapAddr(sb, f, f1, i, pos / 1024, a);
      if a == 0 {
        RoundFails(sb, f, f1, i, c, pos, s);
        return false;
      }
      RoundFills(sb, f, f1, i, c, pos, s, a);
      data := data[a := Splice(data[a], pos % 1024, s)];
      logged := logged + {a};
      return true;
    }

    /** The loop of writei: `tot` bytes of `src` are written at `off`, all of them unless the
        disk is full. */
    method WriteLoop(i: nat, off: nat, src: seq<Byte>, ghost c: seq<Byte>) returns (tot: nat)
      requires Valid() && i < |ino| && |ino[i].addrs| == NDIRECT + 1 && Holds(data, ino, i, c)
      requires off <= |c| && off + |src| <= MAXFILE * BSIZE
      modifies this`data, this`used, this`ino, this`own, this`logged
      ensures Valid() && LoopDone(sb, old(Now()), Now(), i, c, off, src, tot)
      ensures i < |ino| && |ino[i].addrs| == NDIRECT + 1
      ensures tot < |src| ==> FullAt(data, used, ino, i, off + tot)
    {
      hide FsOk, Starts, FullAt, Part, RoundDone, LoopDone, Splice;
      FsSize(sb, Now());
      LoopStart(sb, Now(), i, off, src, c);
      tot := 0;
      while tot < |src|
        invariant Valid() && LoopDone(sb, old(Now()), Now(), i, c, off, src, tot)
        invariant i < |ino| && |ino[i].addrs| == NDIRECT + 1 && tot <= |src|
        invariant tot == 0 || tot == |src| || (off + tot) % 1024 == 0
      {
        var pos := off + tot;
        var m := Part(pos, |src| - tot);
        ghost var f := Now();
        LoopReady(sb, old(Now()), f, i, c, off, src, tot);
        var ok := WriteRound(i, pos, src[tot..tot + m], Splice(c, off, src[..tot]));
        LoopNext(sb, old(Now()), f, Now(), i, c, off, src, tot, ok);
        if !ok { return; }
        tot := tot + m;
      }
    }

    /** writei with a copy that does not fault: -1, or the number of bytes written.  What it logs
        follows from the blocks it comes to and those it allocates. */
    method Writei(i: nat, off: nat, src: seq<Byte>, ghost c: seq<Byte>) returns (r: int)
      requires Valid() && i < |ino| && |ino[i].addrs| == NDIRECT + 1 && Holds(data, ino, i, c) && off < UINT
               && |src| < UINT
      modifies this
      ensures Valid() && |ino| == old(|ino|) && |ino[i].addrs| == NDIRECT + 1
              && OthersKept(old(data), old(ino), data, ino, i)
      ensures r == -1 <==> off > |c| || off + |src| > MAXFILE * BSIZE
      ensures r == -1 ==> unchanged(this)
      ensures r != -1 ==> 0 <= r <= |src| && Holds(data, ino, i, Splice(c, off, src[..r]))
                          && dinode == old(dinode)[i := ino[i]]
      ensures 0 <= r < |src| ==> FullAt(data, used, ino, i, off + r)
      ensures 0 <= r ==> Recorded(sb, old(Now()), Now())
      ensures 0 <= r ==> GrewTo(old(own), own, i, off, r) && Blocks(off, r) <= Blocks(off, |src|)
                         && (r > 0 ==> Blocks(off, r) > 0)
      ensures 0 <= r ==> logged == old(logged) + WriteLog(sb, old(own), own, i, off / 1024,
                                                          off / 1024 + Blocks(off, r)) + {InodeBlock(sb, i)}
    {
      if off > ino[i].size || Overflows(off, |src|) {
        return -1;
      }
      if off + |src| > MAXFILE * BSIZE {
        return -1;
      }
      r := WriteAll(i, off, src, c);
    }

    /** writei after its checks. */
    method WriteAll(i: nat, off: nat, src: seq<Byte>, ghost c: seq<Byte>) returns (tot: nat)
      requires Valid() && i < |ino| && |ino[i].addrs| == NDIRECT + 1 && Holds(data, ino, i, c) && off <= |c|
               && off + |src| <= MAXFILE * BSIZE
      modifies this
      ensures Valid() && |ino| == old(|ino|) && |ino[i].addrs| == NDIRECT + 1
              && OthersKept(old(data), old(ino), data, ino, i)
      ensures tot <= |src| && Holds(data, ino, i, Splice(c, off, src[..tot])) && dinode == old(dinode)[i := ino[i]]
      ensures tot < |src| ==> FullAt(data, used, ino, i, off + tot)
      ensures Recorded(sb, old(Now()), Now())
      ensures GrewTo(old(own), own, i, off, tot) && Blocks(off, tot) <= Blocks(off, |src|)
              && (tot > 0 ==> Blocks(off, tot) > 0)
      ensures logged == old(logged) + WriteLog(sb, old(own), own, i, off / 1024,
                                               off / 1024 + Blocks(off, tot)) + {InodeBlock(sb, i)}
    {
      hide FsOk, Starts, OthersKept, Splice, Blocks, WriteLog, GrewTo, FullAt, Recorded, LoopDone;
      tot := WriteLoop(i, off, src, c);
      ghost var before := Now();
      LoopIs(sb, old(Now()), before, i, c, off, src, tot);
      ResizeOk(sb, old(data), old(ino), data, used, ino, own, i, Splice(c, off, src[..tot]),
               if off + tot > ino[i].size then off + tot else ino[i].size);
      if off + tot > ino[i].size {
        ResizeHoles(data, used, ino, i, off + tot, off + tot);
        ino := ino[i := ino[i].(size := off + tot)];
      }
      dinode := dinode[i := ino[i]];
      RecordedMore(sb, old(Now()), before, ino, InodeBlock(sb, i));
      logged := logged + {InodeBlock(sb, i)};
    }

    /** readi with a copy that does not fault: the bytes it delivers. */
    method Readi(i: nat, off: nat, len: nat, ghost c: seq<Byte>) returns (dst: seq<Byte>)
      requires Valid() && i < |ino| && |ino[i].addrs| == NDIRECT + 1 && Holds(data, ino, i, c) && off < UINT
               && len < UINT
      modifies this`data, this`used, this`ino, this`own, this`logged
      ensures unchanged(this)
      ensures dst == if off > |c| || off + len >= UINT then [] else c[off..if off + len > |c| then |c| else off + len]
    {
      if off > ino[i].size || Overflows(off, len) {
        return [];
      }
      hide FsOk, Starts, Part, Overflows;
      var n := if off + len > ino[i].size then ino[i].size - off else len;
      dst := [];
      while |dst| < n
        invariant unchanged(this) && |dst| <= n && dst == c[off..off + |dst|]
      {
        var pos := off + |dst|;
        var m := Part(pos, n - |dst|);
        var a := ReadRound(i, pos, m, c);
        if a == 0 { break; }
        assert c[off..pos] + c[pos..pos + m] == c[off..pos + m];
        dst := dst + data[a][pos % 1024..pos % 1024 + m];
      }
    }

    /** One round of readi: the block that holds the `m` bytes at `pos`. */
    method ReadRound(i: nat, pos: nat, m: nat, ghost c: seq<Byte>) returns (a: nat)
      requires Valid() && i < |ino| && |ino[i].addrs| == NDIRECT + 1 && Starts(data, ino, i, c)
      requires 0 < m && pos + m <= |c| && pos % 1024 + m <= 1024
      modifies this`data, this`used, this`ino, this`own, this`logged
      ensures unchanged(this) && 0 < a < |data| && |data[a]| == BSIZE
              && data[a][pos % 1024..pos % 1024 + m] == c[pos..pos + m]
    {
      hide FsOk, OneBlock, Starts, FileBlock, Addr, Grew, AllocLog;
      NotAHole(data, ino, i, c, pos);
      a := Bmap(i, pos / 1024);
      ReadBlock(data, ino, i, c, pos, m, a);
    }

    /** itrunc: the file is empty, and exactly the bits of its blocks are cleared. */
    method Itrunc(i: nat)
      requires Valid() && i < |ino|
      modifies this
      ensures Valid() && |ino| == old(|ino|) && data == old(data) && OthersKept(old(data), old(ino), data, ino, i)
      ensures |ino[i].addrs| == NDIRECT + 1 && Holds(data, ino, i, []) && dinode == old(dinode)[i := ino[i]]
      ensures BitsCleared(old(used), used, old(own), i, 0, NSLOTS) && own == Released(old(own), i, 0, NSLOTS)
      ensures Recorded(sb, old(Now()), Now()) && InodeBlock(sb, i) in logged
    {
      hide Recorded;
      ClearDirect(i);
      ghost var used1, ino1, f := used, ino, Now();
      ClearIndirect(i);
      RecordedBoth(sb, old(Now()), f, Now());
      RecordedMore(sb, old(Now()), Now(), ino[i := ino[i].(size := 0)], InodeBlock(sb, i));
      ReleaseBoth(old(used), used1, used, old(own), i);
      OthersTrans(data, old(ino), data, ino1, data, ino, i);
      ResizeOk(sb, old(data), old(ino), data, used, ino, own, i, [], 0);
      ino := ino[i := ino[i].(size := 0)];
      dinode := dinode[i := ino[i]];
      logged := logged + {InodeBlock(sb, i)};
    }

    method ClearDirect(i: nat)
      requires Valid() && i < |ino|
      modifies this`used, this`ino, this`own, this`logged
      ensures Valid() && |ino| == old(|ino|) && OthersKept(data, old(ino), data, ino, i)
      ensures AddrsCleared(old(ino), ino, i, 0, NDIRECT)
      ensures BitsCleared(old(used), used, old(own), i, 0, NDIRECT) && own == Released(old(own), i, 0, NDIRECT)
      ensures Recorded(sb, old(Now()), Now())
    {
      hide Recorded;
      RecordedNone(sb, Now(), own, ino);
      for k := 0 to NDIRECT
        invariant Shape(sb, data, used, ino) && |dinode| == |ino| && own == old(own)
        invariant AddrsCleared(old(ino), ino, i, 0, k) && ino[i].size == old(ino)[i].size
        invariant BitsCleared(old(used), used, old(own), i, 0, k) && Recorded(sb, old(Now()), Now())
      {
        var a := ino[i].addrs[k];
        FreeOneMore(sb, data, old(used), old(ino), old(own), used, i, 0, k, k);
        if a != 0 {
          RecordedFree(sb, old(Now()), Now(), a, ino[i := ino[i].(addrs := ino[i].addrs[k := 0])]);
          Bfree(a);
          ino := ino[i := ino[i].(addrs := ino[i].addrs[k := 0])];
        }
      }
      ReleaseOk(sb, data, old(used), old(ino), old(own), used, ino, i, 0, NDIRECT);
      RecordedSame(sb, old(Now()), Now(), Released(own, i, 0, NDIRECT));
      own := Released(own, i, 0, NDIRECT);
    }

    /** The blocks that the indirect block `p` of an inode names. */
    method FreeWords(i: nat, p: nat)
      requires Valid() && i < |ino| && |ino[i].addrs| == NDIRECT + 1 && p == ino[i].addrs[NDIRECT] != 0
      modifies this`used, this`logged
      ensures Shape(sb, data, used, ino) && Recorded(sb, old(Now()), Now())
      ensures BitsCleared(old(used), used, own, i, NDIRECT + 1, NSLOTS)
    {
      hide Recorded;
      RecordedNone(sb, Now(), own, ino);
      assert SlotOk(data, ino, own, Slot(i, NDIRECT)) && BlockOk(sb, data, used, ino, own, p);
      for j := 0 to NINDIRECT
        invariant Shape(sb, data, used, ino) && Recorded(sb, old(Now()), Now())
        invariant BitsCleared(old(used), used, own, i, NDIRECT + 1, NDIRECT + 1 + j)
      {
        FreeOneMore(sb, data, old(used), ino, own, used, i, NDIRECT + 1, NDIRECT + 1 + j, NDIRECT + 1 + j);
        var a := Word(data[p], j);
        if a != 0 {
          RecordedFree(sb, old(Now()), Now(), a, ino);
          Bfree(a);
        }
      }
    }

    method ClearIndirect(i: nat)
      requires Valid() && i < |ino|
      modifies this`used, this`ino, this`own, this`logged
      ensures Valid() && |ino| == old(|ino|) && OthersKept(data, old(ino), data, ino, i)
      ensures AddrsCleared(old(ino), ino, i, NDIRECT, NSLOTS)
      ensures BitsCleared(old(used), used, old(own), i, NDIRECT, NSLOTS)
              && own == Released(old(own), i, NDIRECT, NSLOTS)
      ensures Recorded(sb, old(Now()), Now())
    {
      hide Recorded;
      RecordedNone(sb, Now(), own, ino);
      var p := ino[i].addrs[NDIRECT];
      if p != 0 {
        FreeWords(i, p);
        FreeOneMore(sb, data, old(used), old(ino), old(own), used, i, NDIRECT + 1, NSLOTS, NDIRECT);
        RecordedFree(sb, old(Now()), Now(), p, ino[i := ino[i].(addrs := ino[i].addrs[NDIRECT := 0])]);
        Bfree(p);
        ino := ino[i := ino[i].(addrs := ino[i].addrs[NDIRECT := 0])];
      } else {
        NoIndirect(sb, data, used, ino, own, i);
      }
      ReleaseOk(sb, data, old(used), old(ino), old(own), used, ino, i, NDIRECT, NSLOTS);
      RecordedSame(sb, old(Now()), Now(), Released(own, i, NDIRECT, NSLOTS));
      own := Released(own, i, NDIRECT, NSLOTS);
    }

    /** One transaction of filewrite. */
    method WriteChunk(i: nat, off: nat, src: seq<Byte>, k: nat, n1: nat, ghost c: seq<Byte>) returns (r: int)
      requires Valid() && k + n1 <= |src| && 0 < n1 <= 3072 && off + k < UINT
      requires Written(Now(), i, c, off, src, k)
      modifies this
      ensures Valid() && |ino| == old(|ino|) && OthersKept(old(data), old(ino), data, ino, i)
      ensures -1 <= r <= n1 && Written(Now(), i, c, off, src, if r > 0 then k + r else k) && off + k + r < UINT
      ensures r == -1 <==> off > |c| || off + k + n1 > MAXFILE * BSIZE
      ensures 0 <= r < n1 ==> FullAt(data, used, ino, i, off + k + r)
      ensures r == -1 ==> logged == {}
      ensures r >= 0 ==>
        && GrewTo(old(own), own, i, off + k, r)
        && logged == WriteLog(sb, old(own), own, i, (off + k) / 1024,
                              (off + k) / 1024 + Blocks(off + k, r)) + {InodeBlock(sb, i)}
      ensures ChunkStep(sb, old(Now()), Now()) && (old(dinode == ino) ==> dinode == ino)
    {
      hide FsOk, Starts, OthersKept, Splice, Holds, Blocks, WriteLog, GrewTo, FullAt, Recorded, ChunkStep, Written,
        WithPart;
      ghost var f := Now();
      WrittenIs(f, i, c, off, src, k);
      logged := {};
      r := Writei(i, off + k, src[k..k + n1], WithPart(c, off, src, k));
      if r >= 0 {
        WrittenNext(Now(), i, c, off, src, k, n1, r);
        ChunkDone(sb, f, Now(), i, off + k, r, n1);
      } else {
        WrittenSame(f, Now(), i, c, off, src, k);
        ChunkStepNone(sb, f, Now());
      }
    }

    /** The loop of filewrite at file offset `off`: one transaction for each chunk.  `done`
        bytes are written; `stages` are the file systems between the transactions. */
    method FileWrite(i: nat, off: nat, src: seq<Byte>, ghost c: seq<Byte>)
      returns (ret: int, off': nat, ghost done: nat, ghost stages: seq<Stage>)
      requires Valid() && i < |ino| && |ino[i].addrs| == NDIRECT + 1 && Holds(data, ino, i, c) && off < UINT
      modifies this
      ensures Valid() && |ino| == old(|ino|) && OthersKept(old(data), old(ino), data, ino, i)
      ensures done <= |src| && off' == off + done && ret == if done == |src| then |src| else -1
      ensures Written(Now(), i, c, off, src, done)
      ensures done == |src| || CutShort(c, off, src, done) || FullAt(data, used, ino, i, off + done)
      ensures done > 0 ==> off <= |c| && off + done <= MAXFILE * BSIZE
      ensures Staged(sb, old(Now()), stages, Stage(Now(), done), i, c, off, src)
      ensures old(dinode == ino) ==> dinode == ino
    {
      hide FsOk, OthersKept, Holds, Splice, FullAt, GrewTo, WriteLog, Blocks, ChunkStep, Staged, Written;
      FsSize(sb, Now());
      WriteBegin(sb, Now(), i, off, src, c);
      var max := (MAXOPBLOCKS - 1 - 1 - 2) / 2 * BSIZE;
      off', done, stages := off, 0, [Stage(Now(), 0)];
      var k := 0;
      while k < |src|
        invariant 0 <= k <= |src| && off' == off + k < UINT && done == k && Valid() && |ino| == old(|ino|)
        invariant OthersKept(old(data), old(ino), data, ino, i) && Written(Now(), i, c, off, src, k)
        invariant Staged(sb, old(Now()), stages, Stage(Now(), k), i, c, off, src)
        invariant old(dinode == ino) ==> dinode == ino
        invariant (k == |src| || k % 3072 == 0) && (k > 0 ==> off <= |c| && off + k <= MAXFILE * BSIZE)
      {
        var n1 := if |src| - k > max then max else |src| - k;
        ghost var f := Now();
        var r := WriteChunk(i, off, src, k, n1, c);
        OthersTrans(old(data), old(ino), f.data, f.ino, data, ino, i);
        done := if r > 0 then k + r else k;
        FsSize(sb, Now());
        StagedNext(sb, old(Now()), stages, Stage(f, k), Stage(Now(), done), i, c, off, src);
        stages := stages + [Stage(Now(), done)];
        if r > 0 {
          off' := off' + r;
        }
        if r != n1 { break; }
        k := k + r;
      }
      ret := if k == |src| then |src| else -1;
    }
  }

  // ---- Transactions ----

  /** What file `i` holds once `k` bytes of `src` are written at `off`. */
  ghost predicate Written(f: Fs, i: nat, c: seq<Byte>, off: nat, src: seq<Byte>, k: nat) {
    && i < |f.ino| && |f.ino[i].addrs| == NDIRECT + 1 && k <= |src|
    && if off <= |c| then Holds(f.data, f.ino, i, Splice(c, off, src[..k])) else k == 0 && Holds(f.data, f.ino, i, c)
  }

  /** The contents `c` with the first `k` bytes of `src` written at `off`, if writing begins at all. */
  ghost function WithPart(c: seq<Byte>, off: nat, src: seq<Byte>, k: nat): seq<Byte>
    requires k <= |src|
  {
    if off <= |c| then Splice(c, off, src[..k]) else c
  }

  lemma {:induction false} WrittenIs(f: Fs, i: nat, c: seq<Byte>, off: nat, src: seq<Byte>, k: nat)
    requires Written(f, i, c, off, src, k)
    ensures i < |f.ino| && |f.ino[i].addrs| == NDIRECT + 1 && Holds(f.data, f.ino, i, WithPart(c, off, src, k))
    ensures off + k <= |WithPart(c, off, src, k)| <==> off <= |c|
  {
    if off <= |c| { ChunkNext(c, off, src, k, 0, 0); }
  }

  lemma {:induction false} WrittenSame(f: Fs, f': Fs, i: nat, c: seq<Byte>, off: nat, src: seq<Byte>, k: nat)
    requires Written(f, i, c, off, src, k) && f' == f.(logged := f'.logged)
    ensures Written(f', i, c, off, src, k)
  {
  }

  lemma {:induction false} WrittenNext(f: Fs, i: nat, c: seq<Byte>, off: nat, src: seq<Byte>, k: nat, n: nat, r: nat)
    requires off <= |c| && k + n <= |src| && r <= n && i < |f.ino| && |f.ino[i].addrs| == NDIRECT + 1
    requires off + k <= |WithPart(c, off, src, k)|
    requires Holds(f.data, f.ino, i, Splice(WithPart(c, off, src, k), off + k, src[k..k + n][..r]))
    ensures Written(f, i, c, off, src, k + r)
  {
    hide Holds;
    ChunkNext(c, off, src, k, n, r);
  }

  /** filewrite ends with the chunk after `done` bytes: writing would begin beyond the end of the
      file, or the chunk would make the file too large. */
  ghost predicate CutShort(c: seq<Byte>, off: nat, src: seq<Byte>, done: nat) {
    && done < |src| && done % 3072 == 0
    && (off > |c| || off + done + (if |src| - done > 3072 then 3072 else |src| - done) > MAXFILE * BSIZE)
  }

  /** A block of a file, of the bitmap or of the inodes. */
  ghost predicate Loggable(sb: Super, own: map<nat, Slot>, n: nat, b: nat) {
    b in own || (exists x :: x in own && b == BitmapBlock(sb, x)) || (exists j: nat :: j < n && b == InodeBlock(sb, j))
  }

  /** A transaction has changed `f` to `f'`: every block that has changed is logged, whether it
      holds data, bits or inodes, and what is logged fits a transaction. */
  ghost predicate ChunkStep(sb: Super, f: Fs, f': Fs) {
    && |f'.logged| <= MAXOPBLOCKS && Recorded(sb, f.(logged := {}), f') && |f'.ino| == |f.ino|
    && (forall j :: 0 <= j < |f.ino| && f'.ino[j] != f.ino[j] ==> InodeBlock(sb, j) in f'.logged)
    && (forall b :: b in f'.logged ==> Loggable(sb, f'.own, |f'.ino|, b))
  }

  lemma {:induction false} OneInode(data: seq<Block>, ino: seq<Inode>, data': seq<Block>, ino': seq<Inode>, i: nat)
    requires OthersKept(data, ino, data', ino', i) && i < |ino|
    ensures |ino'| == |ino| && ino' == ino[i := ino'[i]]
  {
  }

  lemma {:induction false} ChunkStepIs(sb: Super, f: Fs, f': Fs, i: nat)
    requires |f'.logged| <= MAXOPBLOCKS && Recorded(sb, f.(logged := {}), f')
    requires i < |f.ino| == |f'.ino| && f'.ino == f.ino[i := f'.ino[i]] && InodeBlock(sb, i) in f'.logged
    requires forall b :: b in f'.logged && b != InodeBlock(sb, i) ==> Loggable(sb, f'.own, 0, b)
    ensures ChunkStep(sb, f, f')
  {
    hide Recorded;
    assert Loggable(sb, f'.own, |f'.ino|, InodeBlock(sb, i));
    forall b | b in f'.logged && b != InodeBlock(sb, i) ensures Loggable(sb, f'.own, |f'.ino|, b) {
      assert Loggable(sb, f'.own, 0, b);
    }
  }

  lemma {:induction false} ChunkStepNone(sb: Super, f: Fs, f': Fs)
    requires f' == f.(logged := {})
    ensures ChunkStep(sb, f, f')
  {
  }

  /** What the allocations and the data of a write log are blocks of files and of the bitmap. */
  lemma {:induction false} LogRange(sb: Super, own0: map<nat, Slot>, own: map<nat, Slot>, i: nat, lo: nat, hi: nat)
    ensures forall b :: b in WriteLog(sb, own0, own, i, lo, hi) ==> Loggable(sb, own, 0, b)
  {
    forall b | b in Bits(sb, Fresh(own0, own)) ensures Loggable(sb, own, 0, b) {
      var x :| x in Fresh(own0, own) && b == BitmapBlock(sb, x);
    }
  }

  /** A file system between two transactions of filewrite, and the bytes written so far. */
  datatype Stage = Stage(f: Fs, done: nat)

  /** The stages of filewrite from `f` to `end`: one transaction leads from each to the next, and
      at each the file holds what it held with the first `done` bytes written. */
  ghost predicate Staged(sb: Super, f: Fs, stages: seq<Stage>, end: Stage, i: nat, c: seq<Byte>, off: nat,
                         src: seq<Byte>)
  {
    && |stages| > 0 && stages[0] == Stage(f, 0) && stages[|stages| - 1] == end
    && (forall t :: 0 <= t < |stages| ==>
          FsIs(sb, stages[t].f) && Written(stages[t].f, i, c, off, src, stages[t].done))
    && (forall t :: 0 <= t < |stages| - 1 ==> Transacts(sb, stages, t))
  }

  ghost predicate Transacts(sb: Super, stages: seq<Stage>, t: nat)
    requires t + 1 < |stages|
  {
    ChunkStep(sb, stages[t].f, stages[t + 1].f) && stages[t].done <= stages[t + 1].done
  }

  lemma {:induction false} FsSize(sb: Super, f: Fs)
    requires FsOk(sb, f.data, f.used, f.ino, f.own)
    ensures FsIs(sb, f)
  {
  }

  lemma {:induction false} WriteBegin(sb: Super, f: Fs, i: nat, off: nat, src: seq<Byte>, c: seq<Byte>)
    requires FsIs(sb, f) && i < |f.ino| && |f.ino[i].addrs| == NDIRECT + 1 && Holds(f.data, f.ino, i, c)
    ensures Written(f, i, c, off, src, 0) && OthersKept(f.data, f.ino, f.data, f.ino, i)
    ensures Staged(sb, f, [Stage(f, 0)], Stage(f, 0), i, c, off, src)
  {
    hide FsOk, Holds, OthersKept;
    WriteStart(f.data, f.ino, i, if off <= |c| then off else 0, src, c);
  }

  lemma {:induction false} StagedNext(sb: Super, f: Fs, stages: seq<Stage>, end: Stage, next: Stage, i: nat,
                                      c: seq<Byte>, off: nat, src: seq<Byte>)
    requires Staged(sb, f, stages, end, i, c, off, src) && ChunkStep(sb, end.f, next.f) && end.done <= next.done
    requires FsIs(sb, next.f) && Written(next.f, i, c, off, src, next.done)
    ensures Staged(sb, f, stages + [next], next, i, c, off, src)
  {
    hide FsIs, Written, ChunkStep;
    var more := stages + [next];
    forall t | 0 <= t < |more| - 1 ensures Transacts(sb, more, t) {
      if t + 1 < |stages| { assert Transacts(sb, stages, t); }
    }
  }

  lemma {:induction false} LoopIs(sb: Super, f: Fs, f': Fs, i: nat, c: seq<Byte>, off: nat, src: seq<Byte>, tot: nat)
    requires LoopDone(sb, f, f', i, c, off, src, tot)
    ensures i < |f.ino| == |f'.ino| && |f'.ino[i].addrs| == NDIRECT + 1 && tot <= |src| && off <= |c|
    ensures Starts(f'.data, f'.ino, i, Splice(c, off, src[..tot])) && f'.ino[i].size == |c|
    ensures OthersKept(f.data, f.ino, f'.data, f'.ino, i) && Recorded(sb, f, f')
    ensures Blocks(off, tot) <= Blocks(off, |src|) && (tot > 0 ==> Blocks(off, tot) > 0)
    ensures GrewTo(f.own, f'.own, i, off, tot)
    ensures f'.logged == f.logged + WriteLog(sb, f.own, f'.own, i, off / 1024, off / 1024 + Blocks(off, tot))
  {
    hide FsOk, Starts, OthersKept, Blocks, WriteLog, GrewTo, Recorded;
  }

  lemma {:induction false} LoopReady(sb: Super, f: Fs, f': Fs, i: nat, c: seq<Byte>, off: nat, src: seq<Byte>,
                                     tot: nat)
    requires LoopDone(sb, f, f', i, c, off, src, tot)
    ensures i < |f'.ino| && |f'.ino[i].addrs| == NDIRECT + 1 && Starts(f'.data, f'.ino, i, Splice(c, off, src[..tot]))
    ensures tot <= |src| && off + tot <= |Splice(c, off, src[..tot])|
  {
    hide FsOk, Starts, OthersKept, Blocks, WriteLog, GrewTo, Recorded;
  }

  lemma {:induction false} LoopStart(sb: Super, f: Fs, i: nat, off: nat, src: seq<Byte>, c: seq<Byte>)
    requires FsIs(sb, f) && i < |f.ino| && |f.ino[i].addrs| == NDIRECT + 1 && Holds(f.data, f.ino, i, c)
    requires off <= |c|
    ensures LoopDone(sb, f, f, i, c, off, src, 0)
  {
    hide FsOk, Starts, OthersKept, Splice, WriteLog, GrewTo, Recorded;
    WriteStart(f.data, f.ino, i, off, src, c);
    LogStart(sb, f.own, i, off);
    RecordedNone(sb, f, f.own, f.ino);
  }

  /** One more round of the loop. */
  lemma {:induction false} LoopNext(sb: Super, f: Fs, f1: Fs, f2: Fs, i: nat, c: seq<Byte>, off: nat, src: seq<Byte>,
                                    tot: nat, ok: bool)
    requires LoopDone(sb, f, f1, i, c, off, src, tot) && tot < |src| && (tot == 0 || (off + tot) % 1024 == 0)
    requires var m := Part(off + tot, |src| - tot);
             RoundDone(sb, f1, f2, i, Splice(c, off, src[..tot]), off + tot, src[tot..tot + m], ok)
    ensures LoopDone(sb, f, f2, i, c, off, src, if ok then tot + Part(off + tot, |src| - tot) else tot)
    ensures i < |f2.ino| && |f2.ino[i].addrs| == NDIRECT + 1
    ensures !ok ==> FullAt(f2.data, f2.used, f2.ino, i, off + tot)
  {
    hide FsOk, Starts, OthersKept, Splice, Blocks, Grew, WriteLog, FullAt, Part, GrewTo, Recorded;
    var m := Part(off + tot, |src| - tot);
    BlocksNext(off, tot, |src|);
    OwnOkOf(sb, f1.data, f1.used, f1.ino, f1.own, i);
    OwnOkOf(sb, f2.data, f2.used, f2.ino, f2.own, i);
    OthersTrans(f.data, f.ino, f1.data, f1.ino, f2.data, f2.ino, i);
    RecordedBoth(sb, f, f1, f2);
    LogMore(sb, f.own, f1.own, f2.own, i, off, tot, |src|, ok);
    SpliceMore(c, off, src[..tot], src[tot..tot + m]);
    assert src[..tot] + src[tot..tot + m] == src[..tot + m];
  }

  lemma {:induction false} ChunkNext(c: seq<Byte>, off: nat, src: seq<Byte>, k: nat, n: nat, r: nat)
    requires off <= |c| && k + n <= |src| && r <= n
    ensures off + k <= |Splice(c, off, src[..k])|
    ensures Splice(Splice(c, off, src[..k]), off + k, src[k..k + n][..r]) == Splice(c, off, src[..k + r])
  {
    SpliceMore(c, off, src[..k], src[k..k + r]);
    assert src[k..k + n][..r] == src[k..k + r];
    assert src[..k] + src[k..k + r] == src[..k + r];
  }

  /** The allocations of a write of `tot` bytes: for the indirect block and the blocks of the
      range, but not for the first if the range begins inside it. */
  ghost predicate GrewTo(own0: map<nat, Slot>, own: map<nat, Slot>, i: nat, off: nat, tot: nat) {
    Grew(own0, own, i, off / 1024 + (if off % 1024 != 0 && tot > 0 then 1 else 0), off / 1024 + Blocks(off, tot))
  }

  /** A chunk lies in three blocks, or in four of which the first is not new: it fits a
      transaction. */
  lemma {:induction false} ChunkLogs(sb: Super, own0: map<nat, Slot>, own: map<nat, Slot>, i: nat, off: nat, tot: nat,
                                     n: nat, x: nat)
    requires GrewTo(own0, own, i, off, tot) && OwnOk(own, i) && tot <= n <= 3072
    requires Blocks(off, tot) <= Blocks(off, n) && (tot > 0 ==> Blocks(off, tot) > 0)
    ensures |WriteLog(sb, own0, own, i, off / 1024, off / 1024 + Blocks(off, tot)) + {x}| <= MAXOPBLOCKS
  {
    hide Grew, OwnOk, Touches, AllocLog;
    var lo, hi := off / 1024, off / 1024 + Blocks(off, tot);
    var first := lo + if off % 1024 != 0 && tot > 0 then 1 else 0;
    LogBound(sb, own0, own, i, lo, hi, first);
    BlocksBound(off, tot, n);
    CardSum(WriteLog(sb, own0, own, i, lo, hi), {x});
  }

  /** What a chunk has changed is logged, and fits a transaction. */
  lemma {:induction false} ChunkDone(sb: Super, f: Fs, f': Fs, i: nat, pos: nat, r: nat, n: nat)
    requires FsOk(sb, f'.data, f'.used, f'.ino, f'.own) && i < |f.ino| && OthersKept(f.data, f.ino, f'.data, f'.ino, i)
    requires Recorded(sb, f.(logged := {}), f') && GrewTo(f.own, f'.own, i, pos, r) && r <= n <= 3072
    requires Blocks(pos, r) <= Blocks(pos, n) && (r > 0 ==> Blocks(pos, r) > 0)
    requires f'.logged == WriteLog(sb, f.own, f'.own, i, pos / 1024, pos / 1024 + Blocks(pos, r)) + {InodeBlock(sb, i)}
    ensures ChunkStep(sb, f, f')
  {
    hide FsOk, OthersKept, Recorded, GrewTo, Blocks, WriteLog, ChunkStep, Loggable;
    OneInode(f.data, f.ino, f'.data, f'.ino, i);
    OwnOkOf(sb, f'.data, f'.used, f'.ino, f'.own, i);
    ChunkLogs(sb, f.own, f'.own, i, pos, r, n, InodeBlock(sb, i));
    LogRange(sb, f.own, f'.own, i, pos / 1024, pos / 1024 + Blocks(pos, r));
    ChunkStepIs(sb, f, f', i);
  }

  lemma {:induction false} LogNone(sb: Super, own: map<nat, Slot>, i: nat, v: nat)
    ensures AllocLog(sb, own, own, i) == {} && Grew(own, own, i, v, v)
  {
    assert Fresh(own, own) == {};
    assert Bits(sb, {}) == {};
  }

  /** What giving a block to a direct slot, or for an indirect block, logs. */
  lemma {:induction false} LogDirect(sb: Super, own: map<nat, Slot>, i: nat, k: nat, a: nat)
    requires a !in own && k <= NDIRECT
    ensures AllocLog(sb, own, own[a := Slot(i, k)], i) == {BitmapBlock(sb, a), a}
  {
    assert Fresh(own, own[a := Slot(i, k)]) == {a};
    assert Bits(sb, {a}) == {BitmapBlock(sb, a)};
  }

  /** What giving a block to a word of indirect block `p` logs. */
  lemma {:induction false} LogWord(sb: Super, own: map<nat, Slot>, i: nat, j: nat, a: nat, p: nat)
    requires a !in own && OwnOk(own, i) && p in own && own[p] == Slot(i, NDIRECT)
    ensures AllocLog(sb, own, own[a := Slot(i, NDIRECT + 1 + j)], i) == {BitmapBlock(sb, a), a, p}
  {
    var own' := own[a := Slot(i, NDIRECT + 1 + j)];
    assert Fresh(own, own') == {a};
    assert Bits(sb, {a}) == {BitmapBlock(sb, a)};
    assert GaveWord(own, own', i) by { assert a in Fresh(own, own'); }
    forall b | b in Ind(own', i) ensures b == p { assert own[b] == own[p]; }
    assert Ind(own', i) == {p};
  }

  /** The word of an indirect block is the address; nothing has to be done if it is there, and
      nothing can be done if no block is free. */
  lemma {:induction false} WordThere(sb: Super, f: Fs, i: nat, j: nat)
    requires FsIs(sb, f) && i < |f.ino| && j < NINDIRECT && f.ino[i].addrs[NDIRECT] != 0
    ensures |f.ino[i].addrs| == NDIRECT + 1
    ensures var p := f.ino[i].addrs[NDIRECT];
            && p < |f.data| && |f.data[p]| == BSIZE && |f.used| == sb.size
            && var a := Word(f.data[p], j);
               a == Addr(f.data, f.ino, Slot(i, NDIRECT + 1 + j))
                 && (a != 0 || NoneFree(f) ==> GotWord(sb, f, f, i, j, a))
  {
    var p := f.ino[i].addrs[NDIRECT];
    assert SlotOk(f.data, f.ino, f.own, Slot(i, NDIRECT)) && BlockOk(sb, f.data, f.used, f.ino, f.own, p);
    var a := Word(f.data[p], j);
    assert SlotOk(f.data, f.ino, f.own, Slot(i, NDIRECT + 1 + j)) && BlockOk(sb, f.data, f.used, f.ino, f.own, a);
    LogNone(sb, f.own, i, 0);
  }

  /** A free block is given to the word. */
  lemma {:induction false} WordGiven(sb: Super, f: Fs, i: nat, j: nat, a: nat)
    requires FsIs(sb, f) && i < |f.ino| && j < NINDIRECT && f.ino[i].addrs[NDIRECT] != 0
    requires Addr(f.data, f.ino, Slot(i, NDIRECT + 1 + j)) == 0 && 0 < a < sb.size == |f.used| && !f.used[a]
    ensures var p := f.ino[i].addrs[NDIRECT];
            && p < |f.data| && |f.data[p]| == BSIZE && p != a
            && var f' := Fs(f.data[a := NoData()][p := PutWord(f.data[p], j, a)], f.used[a := true], f.ino,
                            f.own[a := Slot(i, NDIRECT + 1 + j)], f.logged + {BitmapBlock(sb, a), a} + {p});
               FsIs(sb, f') && GotWord(sb, f, f', i, j, a)
  {
    var p := f.ino[i].addrs[NDIRECT];
    assert SlotOk(f.data, f.ino, f.own, Slot(i, NDIRECT)) && BlockOk(sb, f.data, f.used, f.ino, f.own, p);
    assert BlockOk(sb, f.data, f.used, f.ino, f.own, a);
    OwnOkOf(sb, f.data, f.used, f.ino, f.own, i);
    GiveWordOk(sb, f.data, f.used, f.ino, f.own, i, j, a);
    LogWord(sb, f.own, i, j, a, p);
    assert f.logged + {BitmapBlock(sb, a), a} + {p} == f.logged + {BitmapBlock(sb, a), a, p};
  }

  /** An indirect block and a word of it. */
  lemma {:induction false} LogBoth(sb: Super, own0: map<nat, Slot>, own1: map<nat, Slot>, own2: map<nat, Slot>,
                                   i: nat, bn: nat)
    requires OwnOk(own1, i) && OwnOk(own2, i) && NDIRECT <= bn < MAXFILE
    requires own1 == own0 || exists a: nat :: a !in own0 && own1 == own0[a := Slot(i, NDIRECT)]
    requires own2 == own1 || exists a: nat :: a !in own1 && own2 == own1[a := Slot(i, bn + 1)]
    ensures AllocLog(sb, own0, own2, i) == AllocLog(sb, own0, own1, i) + AllocLog(sb, own1, own2, i)
    ensures Grew(own0, own2, i, bn, bn + 1)
  {
    hide AllocLog, OwnOk;
    assert forall b :: b in own0 ==> b in own1 && own1[b] == own0[b];
    assert forall b :: b in own1 ==> b in own2 && own2[b] == own1[b];
    LogTwice(sb, own0, own1, own2, i);
  }

  /** A file block is a hole exactly if its slot is empty. */
  lemma {:induction false} HoleIff(sb: Super, f: Fs, i: nat, bn: nat)
    requires FsIs(sb, f) && i < |f.ino| && bn < MAXFILE
    ensures FileBlock(f.data, f.ino, i, bn) == [] <==> Addr(f.data, f.ino, Slot(i, SlotOf(bn))) == 0
  {
    var t := Slot(i, SlotOf(bn));
    assert SlotOk(f.data, f.ino, f.own, t) && BlockOk(sb, f.data, f.used, f.ino, f.own, Addr(f.data, f.ino, t));
  }

  lemma {:induction false} NoChange(sb: Super, f: Fs, i: nat, bn: nat, a: nat)
    requires FsIs(sb, f) && i < |f.ino| && bn < MAXFILE && a == Addr(f.data, f.ino, Slot(i, SlotOf(bn))) < sb.size
             && (a == 0 ==> NoneFree(f))
    ensures BmapDone(sb, f, f, i, bn, a)
  {
    RecordedNone(sb, f, f.own, f.ino);
    HoleIff(sb, f, i, bn);
    LogNone(sb, f.own, i, bn);
  }

  lemma {:induction false} GotDirectIs(sb: Super, f: Fs, f': Fs, i: nat, k: nat, a: nat)
    requires GotDirect(sb, f, f', i, k, a)
    ensures i < |f.ino| == |f'.ino| && |f.ino[i].addrs| == |f'.ino[i].addrs| == NDIRECT + 1 && f'.ino[i].addrs[k] == a
    ensures a == 0 ==> f' == f && NoneFree(f)
  {
  }

  lemma {:induction false} DirectDone(sb: Super, f: Fs, f': Fs, i: nat, bn: nat, a: nat)
    requires GotDirect(sb, f, f', i, bn, a) && bn < NDIRECT
    ensures BmapDone(sb, f, f', i, bn, a)
  {
    hide Recorded;
    HoleIff(sb, f, i, bn);
    if a == f.ino[i].addrs[bn] { NoChange(sb, f, i, bn, a); }
  }

  lemma {:induction false} NoIndirectDone(sb: Super, f: Fs, i: nat, bn: nat)
    requires FsIs(sb, f) && i < |f.ino| && NDIRECT <= bn < MAXFILE && f.ino[i].addrs[NDIRECT] == 0 && NoneFree(f)
    ensures BmapDone(sb, f, f, i, bn, 0)
  {
    NoChange(sb, f, i, bn, 0);
  }

  lemma {:induction false} IndirectDone(sb: Super, f: Fs, f1: Fs, f2: Fs, i: nat, bn: nat, b: nat, a: nat)
    requires GotDirect(sb, f, f1, i, NDIRECT, b) && NDIRECT <= bn < MAXFILE && GotWord(sb, f1, f2, i, bn - NDIRECT, a)
    ensures BmapDone(sb, f, f2, i, bn, a)
  {
    hide FsOk, AllocLog, OneBlock, OwnOk, Grew, Recorded;
    var t := Slot(i, bn + 1);
    RecordedBoth(sb, f, f1, f2);
    HoleIff(sb, f, i, bn);
    HoleIff(sb, f1, i, bn);
    OwnOkOf(sb, f1.data, f1.used, f1.ino, f1.own, i);
    OwnOkOf(sb, f2.data, f2.used, f2.ino, f2.own, i);
    LogBoth(sb, f.own, f1.own, f2.own, i, bn);
    OneBlockTwice(sb, f.data, f.ino, f1.data, f1.ino, f2.data, f2.ino, i, bn, a != Addr(f1.data, f1.ino, t));
  }

  /** The file blocks after an indirect block and then a block for one of its words. */
  lemma {:induction false} OneBlockTwice(sb: Super, data: seq<Block>, ino: seq<Inode>, data1: seq<Block>,
                                         ino1: seq<Inode>,
                                         data2: seq<Block>, ino2: seq<Inode>, i: nat, bn: nat, given: bool)
    requires i < |ino| == |ino1| == |ino2| && NDIRECT <= bn < MAXFILE
             && |ino[i].addrs| == |ino1[i].addrs| == |ino2[i].addrs| == NDIRECT + 1
    requires (data1 == data && ino1 == ino) || OneBlock(sb, data, ino, data1, ino1, i, MAXFILE, NoData())
    requires if given then OneBlock(sb, data1, ino1, data2, ino2, i, bn, NoData()) else data2 == data1 && ino2 == ino1
    ensures OneBlock(sb, data, ino, data2, ino2, i, bn, if given then NoData() else FileBlock(data, ino, i, bn))
  {
  }

  lemma {:induction false} GrewKept(own0: map<nat, Slot>, own: map<nat, Slot>, i: nat, lo: nat, hi: nat)
    requires Grew(own0, own, i, lo, hi)
    ensures forall b :: b in own0 ==> b in own && own[b] == own0[b]
  {
  }

  lemma {:induction false} GrewNone(own: map<nat, Slot>, i: nat, v: nat)
    ensures Grew(own, own, i, v, v)
  {
  }

  lemma {:induction false} BmapAddr(sb: Super, f: Fs, f': Fs, i: nat, bn: nat, a: nat)
    requires BmapDone(sb, f, f', i, bn, a)
    ensures FsIs(sb, f') && a < |f'.data|
  {
  }

  lemma {:induction false} RoundFails(sb: Super, f: Fs, f': Fs, i: nat, c: seq<Byte>, pos: nat, s: seq<Byte>)
    requires i < |f.ino| && |f.ino[i].addrs| == NDIRECT + 1 && Starts(f.data, f.ino, i, c)
    requires pos <= |c| && pos < MAXFILE * BSIZE && BmapDone(sb, f, f', i, pos / 1024, 0)
    ensures RoundDone(sb, f, f', i, c, pos, s, false)
  {
    hide FsOk, Starts, OthersKept, Grew, AllocLog, Recorded;
    AfterBmap(sb, f, f', i, c, pos, 0);
    RoundLog(sb, f'.data, f'.used, f'.ino, f'.own, f.own, i, pos, 0);
  }

  lemma {:induction false} RoundFills(sb: Super, f: Fs, f1: Fs, i: nat, c: seq<Byte>, pos: nat, s: seq<Byte>, a: nat)
    requires i < |f.ino| && |f.ino[i].addrs| == NDIRECT + 1 && Starts(f.data, f.ino, i, c)
    requires 0 < |s| && pos % 1024 + |s| <= 1024 && pos + |s| <= MAXFILE * BSIZE
    requires pos <= |c| && BmapDone(sb, f, f1, i, pos / 1024, a) && a != 0
    ensures |f1.data[a]| == BSIZE
    ensures var f' := f1.(data := f1.data[a := Splice(f1.data[a], pos % 1024, s)], logged := f1.logged + {a});
            FsIs(sb, f') && RoundDone(sb, f, f', i, c, pos, s, true)
  {
    hide FsOk, Starts, OthersKept, Grew, AllocLog, Splice, FileBlock, Addr, OneBlock, Touches, Recorded;
    AfterBmap(sb, f, f1, i, c, pos, a);
    RoundLog(sb, f1.data, f1.used, f1.ino, f1.own, f.own, i, pos, a);
    AfterFill(sb, f.data, f.ino, f1.data, f1.used, f1.ino, f1.own, i, c, pos, s);
    var x := Splice(f1.data[a], pos % 1024, s);
    RecordedData(sb, f1, f1.(data := f1.data[a := x], logged := f1.logged + {a}), a, x);
    RecordedBoth(sb, f, f1, f1.(data := f1.data[a := x], logged := f1.logged + {a}));
    if pos % 1024 != 0 { GrewNone(f.own, i, pos / 1024); }
  }

  /** The log after the call of bmap in a round, and with the data block. */
  lemma {:induction false} RoundLog(sb: Super, data: seq<Block>, used: seq<bool>, ino: seq<Inode>,
                                    own: map<nat, Slot>, own0: map<nat, Slot>, i: nat, pos: nat, a: nat)
    requires FsOk(sb, data, used, ino, own) && i < |ino| && pos / 1024 < MAXFILE
             && a == Addr(data, ino, Slot(i, SlotOf(pos / 1024)))
    requires Grew(own0, own, i, pos / 1024, pos / 1024 + 1) && (pos % 1024 != 0 ==> own == own0)
    ensures a == 0 ==> Grew(own0, own, i, pos / 1024, pos / 1024) && FileBlock(data, ino, i, pos / 1024) == []
    ensures Touches(own, i, pos / 1024, pos / 1024) == {}
    ensures a != 0 ==> Touches(own, i, pos / 1024, pos / 1024 + 1) == {a}
  {
    var bn, t := pos / 1024, Slot(i, SlotOf(pos / 1024));
    OwnOkOf(sb, data, used, ino, own, i);
    assert SlotOk(data, ino, own, t);
    if a != 0 {
      TouchesOne(own, i, bn, a);
    } else {
      forall b | b in Fresh(own0, own) ensures own[b].k == NDIRECT {
        assert BlockOk(sb, data, used, ino, own, b) && BlockOk(sb, data, used, ino, own, 0);
        assert own[b] != t;
      }
    }
  }

  lemma {:induction false} LogStart(sb: Super, own: map<nat, Slot>, i: nat, off: nat)
    ensures WriteLog(sb, own, own, i, off / 1024, off / 1024 + Blocks(off, 0)) == {} && GrewTo(own, own, i, off, 0)
  {
    LogNone(sb, own, i, off / 1024);
  }

  /** One more round. */
  lemma {:induction false} LogMore(sb: Super, own0: map<nat, Slot>, own1: map<nat, Slot>, own2: map<nat, Slot>, i: nat,
                                   off: nat, tot: nat, n: nat, ok: bool)
    requires OwnOk(own1, i) && OwnOk(own2, i) && GrewTo(own0, own1, i, off, tot) && tot < n
    requires tot == 0 || (off + tot) % 1024 == 0
    requires var pos := off + tot;
             Grew(own1, own2, i, pos / 1024, if ok && pos % 1024 == 0 then pos / 1024 + 1 else pos / 1024)
    ensures var lo, v, m := off / 1024, (off + tot) / 1024, Part(off + tot, n - tot);
            && v == lo + Blocks(off, tot)
            && WriteLog(sb, own0, own2, i, lo, if ok then v + 1 else v) ==
                 WriteLog(sb, own0, own1, i, lo, v) + WriteLog(sb, own1, own2, i, v, if ok then v + 1 else v)
            && (ok ==> v + 1 == lo + Blocks(off, tot + m) && GrewTo(own0, own2, i, off, tot + m))
            && (!ok ==> GrewTo(own0, own2, i, off, tot))
  {
    hide Blocks, Part, WriteLog, Grew, OwnOk;
    BlocksNext(off, tot, n);
    BlocksAt(off, tot);
    LogStep(sb, own0, own1, own2, i, off / 1024, (off + tot) / 1024, tot > 0, off % 1024 != 0,
            (off + tot) % 1024 == 0, ok);
  }

  lemma {:induction false} LogStep(sb: Super, own0: map<nat, Slot>, own1: map<nat, Slot>, own2: map<nat, Slot>, i: nat,
                                   lo: nat, v: nat, some: bool, part: bool, whole: bool, ok: bool)
    requires OwnOk(own1, i) && OwnOk(own2, i) && (if some then whole && lo < v else v == lo && part == !whole)
    requires Grew(own0, own1, i, if part && some then lo + 1 else lo, v)
             && Grew(own1, own2, i, v, if ok && whole then v + 1 else v)
    ensures var hi := if ok then v + 1 else v;
            && WriteLog(sb, own0, own2, i, lo, hi)
               == WriteLog(sb, own0, own1, i, lo, v) + WriteLog(sb, own1, own2, i, v, hi)
            && Grew(own0, own2, i, if part && (some || ok) then lo + 1 else lo, hi)
  {
    hide AllocLog, Touches, OwnOk, Grew, WriteLog;
    var first, hi := if part && some then lo + 1 else lo, if ok then v + 1 else v;
    GrewKept(own0, own1, i, first, v);
    GrewWider(own1, own2, i, v, if ok && whole then v + 1 else v, hi);
    GrewJoin(own0, own1, own2, i, first, v, if ok && whole then v + 1 else v,
             if part && (some || ok) then lo + 1 else lo, hi);
    RangeLog(sb, own0, own1, own2, i, lo, v, hi);
  }

  lemma {:induction false} RangeLog(sb: Super, own0: map<nat, Slot>, own1: map<nat, Slot>, own2: map<nat, Slot>,
                                    i: nat, lo: nat, v: nat, hi: nat)
    requires OwnOk(own1, i) && OwnOk(own2, i) && lo <= v <= hi && Grew(own1, own2, i, v, hi)
    requires forall b :: b in own0 ==> b in own1 && own1[b] == own0[b]
    ensures WriteLog(sb, own0, own2, i, lo, hi)
            == WriteLog(sb, own0, own1, i, lo, v) + WriteLog(sb, own1, own2, i, v, hi)
  {
    LogTwice(sb, own0, own1, own2, i);
    TouchesSame(own1, own2, i, lo, v, hi);
    TouchesSplit(own2, i, lo, v, hi);
    hide Touches, AllocLog;
  }

  /** Freeing the block of one slot more: it is still in use. */
  lemma {:induction false} FreeOneMore(sb: Super, data: seq<Block>, used: seq<bool>, ino: seq<Inode>,
                                       own: map<nat, Slot>, used': seq<bool>, i: nat, lo: nat, hi: nat, k: nat)
    requires FsOk(sb, data, used, ino, own) && i < |ino| && k < NSLOTS
    requires BitsCleared(used, used', own, i, lo, hi) && (k == hi || k + 1 == lo) && lo <= hi
    ensures var a := Addr(data, ino, Slot(i, k));
            && (a != 0 ==> a < |used'| && used'[a])
            && BitsCleared(used, if a == 0 then used' else used'[a := false], own, i,
                           if k < lo then k else lo, if k < lo then hi else k + 1)
  {
    var a := Addr(data, ino, Slot(i, k));
    assert SlotOk(data, ino, own, Slot(i, k)) && BlockOk(sb, data, used, ino, own, a);
    forall b: nat | b in own ensures own[b] == Slot(i, k) <==> b == a != 0 {
      assert BlockOk(sb, data, used, ino, own, b);
    }
  }

  lemma {:induction false} ReleaseBoth(used: seq<bool>, used1: seq<bool>, used2: seq<bool>, own: map<nat, Slot>, i: nat)
    requires BitsCleared(used, used1, own, i, 0, NDIRECT)
    requires BitsCleared(used1, used2, Released(own, i, 0, NDIRECT), i, NDIRECT, NSLOTS)
    ensures BitsCleared(used, used2, own, i, 0, NSLOTS)
    ensures Released(Released(own, i, 0, NDIRECT), i, NDIRECT, NSLOTS) == Released(own, i, 0, NSLOTS)
  {
  }

  lemma {:induction false} NoIndirect(sb: Super, data: seq<Block>, used: seq<bool>, ino: seq<Inode>,
                                      own: map<nat, Slot>, i: nat)
    requires FsOk(sb, data, used, ino, own) && i < |ino| && ino[i].addrs[NDIRECT] == 0
    ensures BitsCleared(used, used, own, i, NDIRECT, NSLOTS)
  {
    forall b: nat ensures !Among(own, b, i, NDIRECT, NSLOTS) { assert BlockOk(sb, data, used, ino, own, b); }
  }

  lemma {:induction false} NotAHole(data: seq<Block>, ino: seq<Inode>, i: nat, c: seq<Byte>, pos: nat)
    requires i < |ino| && |ino[i].addrs| == NDIRECT + 1 && Starts(data, ino, i, c) && pos < |c|
    ensures pos / 1024 < MAXFILE && FileBlock(data, ino, i, pos / 1024) != []
  {
    assert ByteIs(data, ino, i, pos, c[pos]);
  }

  /** One round of readi. */
  lemma {:induction false} ReadBlock(data: seq<Block>, ino: seq<Inode>, i: nat, c: seq<Byte>, pos: nat, m: nat, a: nat)
    requires i < |ino| && |ino[i].addrs| == NDIRECT + 1 && Starts(data, ino, i, c) && 0 < m && pos + m <= |c|
             && pos % 1024 + m <= 1024
    requires a != 0 && a < |data| && a == Addr(data, ino, Slot(i, SlotOf(pos / 1024)))
    ensures |data[a]| == BSIZE && data[a][pos % 1024..pos % 1024 + m] == c[pos..pos + m]
  {
    assert ByteIs(data, ino, i, pos, c[pos]);
    forall x | pos <= x < pos + m ensures data[a][pos % 1024 + x - pos] == c[x] {
      InBlock(pos, m, x);
      assert ByteIs(data, ino, i, x, c[x]);
    }
  }

  /** Nothing written yet. */
  lemma {:induction false} WriteStart(data: seq<Block>, ino: seq<Inode>, i: nat, off: nat, src: seq<Byte>, c: seq<Byte>)
    requires i < |ino| && |ino[i].addrs| == NDIRECT + 1 && off <= |c|
    ensures OthersKept(data, ino, data, ino, i) && Blocks(off, 0) == 0 <= Blocks(off, |src|)
    ensures Splice(c, off, src[..0]) == c
  {
  }

  lemma {:induction false} OthersTrans(data0: seq<Block>, ino0: seq<Inode>, data1: seq<Block>, ino1: seq<Inode>,
                                       data2: seq<Block>, ino2: seq<Inode>, i: nat)
    requires OthersKept(data0, ino0, data1, ino1, i) && OthersKept(data1, ino1, data2, ino2, i)
    ensures OthersKept(data0, ino0, data2, ino2, i)
  {
  }

  /** A new size in the inode. */
  lemma {:induction false} ResizeOk(sb: Super, data0: seq<Block>, ino0: seq<Inode>, data: seq<Block>, used: seq<bool>,
                                    ino: seq<Inode>, own: map<nat, Slot>, i: nat, c: seq<Byte>, size: nat)
    requires FsOk(sb, data, used, ino, own) && i < |ino| && Starts(data, ino, i, c)
             && OthersKept(data0, ino0, data, ino, i)
    ensures var ino' := ino[i := ino[i].(size := size)];
            FsOk(sb, data, used, ino', own) && Starts(data, ino', i, c) && OthersKept(data0, ino0, data, ino', i)
  {
    var ino' := ino[i := ino[i].(size := size)];
    forall t ensures SlotOk(data, ino', own, t) { assert SlotOk(data, ino, own, t); }
    forall x: nat ensures BlockOk(sb, data, used, ino', own, x) { assert BlockOk(sb, data, used, ino, own, x); }
    forall x: nat | x < |c| ensures ByteIs(data, ino', i, x, c[x]) { assert ByteIs(data, ino, i, x, c[x]); }
  }

  lemma {:induction false} ResizeHoles(data: seq<Block>, used: seq<bool>, ino: seq<Inode>, i: nat, size: nat, pos: nat)
    requires i < |ino| && |ino[i].addrs| == NDIRECT + 1
    ensures FullAt(data, used, ino, i, pos) ==> FullAt(data, used, ino[i := ino[i].(size := size)], i, pos)
  {
  }

  /** The file after the call of bmap in writei or readi. */
  lemma {:induction false} AfterBmap(sb: Super, f: Fs, f': Fs, i: nat, c: seq<Byte>, pos: nat, a: nat)
    requires i < |f.ino| && |f.ino[i].addrs| == NDIRECT + 1 && Starts(f.data, f.ino, i, c)
    requires pos <= |c| && pos < MAXFILE * BSIZE && BmapDone(sb, f, f', i, pos / 1024, a)
    ensures i < |f'.ino| == |f.ino| && |f'.ino[i].addrs| == NDIRECT + 1 && a < sb.size
    ensures Starts(f'.data, f'.ino, i, c) && OthersKept(f.data, f.ino, f'.data, f'.ino, i)
            && f'.ino[i].size == f.ino[i].size
    ensures a == Addr(f'.data, f'.ino, Slot(i, SlotOf(pos / 1024)))
            && Grew(f.own, f'.own, i, pos / 1024, pos / 1024 + 1)
    ensures (pos % 1024 != 0 ==> f'.own == f.own) && (a == 0 ==> NoneFree(f'))
    ensures f'.logged == f.logged + AllocLog(sb, f.own, f'.own, i)
  {
    Touched(f.data, f.ino, f'.data, f'.ino, i, c, pos);
  }

  /** The file after the copy of writei. */
  lemma {:induction false} AfterFill(sb: Super, data0: seq<Block>, ino0: seq<Inode>, data: seq<Block>,
                                     used: seq<bool>, ino: seq<Inode>, own: map<nat, Slot>,
                                     i: nat, c: seq<Byte>, pos: nat, s: seq<Byte>)
    requires FsOk(sb, data, used, ino, own) && i < |ino| == |ino0| && Starts(data, ino, i, c) && pos <= |c|
    requires 0 < |s| && pos % 1024 + |s| <= 1024 && pos + |s| <= MAXFILE * BSIZE
    requires Addr(data, ino, Slot(i, SlotOf(pos / 1024))) != 0 && OthersKept(data0, ino0, data, ino, i)
    ensures var a := Addr(data, ino, Slot(i, SlotOf(pos / 1024)));
            && a < |data| && |data[a]| == BSIZE
            && var data' := data[a := Splice(data[a], pos % 1024, s)];
               FsOk(sb, data', used, ino, own) && Starts(data', ino, i, Splice(c, pos, s))
                 && OthersKept(data0, ino0, data', ino, i)
  {
    var t := Slot(i, SlotOf(pos / 1024));
    var a := Addr(data, ino, t);
    assert SlotOk(data, ino, own, t) && BlockOk(sb, data, used, ino, own, a);
    FillOk(sb, data, used, ino, own, i, pos / 1024, Splice(data[a], pos % 1024, s));
    SpliceBlock(sb, data, ino, data[a := Splice(data[a], pos % 1024, s)], ino, i, c, pos, s, data[a]);
  }

  /** bmap loses no byte of the file, and needs no new block inside it. */
  lemma {:induction false} Touched(data: seq<Block>, ino: seq<Inode>, data': seq<Block>, ino': seq<Inode>, i: nat,
                                   c: seq<Byte>, pos: nat)
    requires i < |ino| == |ino'| && |ino[i].addrs| == |ino'[i].addrs| == NDIRECT + 1 && Starts(data, ino, i, c)
             && pos <= |c|
    requires forall b: nat :: b < MAXFILE && FileBlock(data, ino, i, b) != [] ==>
               FileBlock(data', ino', i, b) == FileBlock(data, ino, i, b)
    requires pos < MAXFILE * BSIZE
    ensures Starts(data', ino', i, c)
    ensures FileBlock(data, ino, i, pos / 1024) == [] ==> pos % 1024 == 0
  {
    forall x: nat | x < |c| ensures ByteIs(data', ino', i, x, c[x]) { assert ByteIs(data, ino, i, x, c[x]); }
    if pos % 1024 != 0 { assert ByteIs(data, ino, i, pos - pos % 1024, c[pos - pos % 1024]); }
  }

  function NoInode(): (r: Inode)
    ensures r.addrs == [0, 0, 0, 0, 0, 0, 0, 0, 0, 0, 0, 0, 0] && r.size == 0
  {
    Inode([0, 0, 0, 0, 0, 0, 0, 0, 0, 0, 0, 0, 0], 0)
  }
}
