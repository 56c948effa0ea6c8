/** Disk blocks, the block bitmap and inodes with direct and indirect addresses. */
module FileModel {
  import opened Types

  const BSIZE: nat := 1024
  const NDIRECT: nat := 12
  const NINDIRECT: nat := 256
  const MAXFILE: nat := 268
  const NSLOTS: nat := 269

  type Block = seq<Byte>

  /** The layout: blocks below `nmeta` hold the boot block, the log, the inodes and the bitmap. */
  datatype Super = Super(size: nat, inodestart: nat, bmapstart: nat, nmeta: nat)

  datatype Inode = Inode(addrs: seq<nat>, size: nat)

  /** A place that can hold a block address: slot 0..11 of an inode for the direct addresses,
      12 for the address of the indirect block, 13.. for the words of the indirect block. */
  datatype Slot = Slot(inum: nat, k: nat)

  function NoData(): (b: Block)
    ensures |b| == BSIZE && forall i :: 0 <= i < BSIZE ==> b[i] == 0
  {
    seq(BSIZE, _ => 0)
  }

  // ---- The words of an indirect block, little-endian ----

  function Word(b: Block, j: nat): (w: nat)
    requires |b| == BSIZE && j < NINDIRECT
    ensures w < UINT
  {
    b[4 * j] as int + 0x100 * b[4 * j + 1] as int + 0x1_0000 * b[4 * j + 2] as int + 0x100_0000 * b[4 * j + 3] as int
  }

  function PutWord(b: Block, j: nat, w: nat): (r: Block)
    requires |b| == BSIZE && j < NINDIRECT && w < UINT
    ensures |r| == BSIZE
  {
    b[4 * j := w % 0x100][4 * j + 1 := w / 0x100 % 0x100]
     [4 * j + 2 := w / 0x1_0000 % 0x100][4 * j + 3 := w / 0x100_0000]
  }

  lemma {:induction false} WordOfPut(b: Block, j: nat, w: nat, k: nat)
    requires |b| == BSIZE && j < NINDIRECT && k < NINDIRECT && w < UINT
    ensures Word(PutWord(b, j, w), k) == if k == j then w else Word(b, k)
  {
    var r := PutWord(b, j, w);
    if k == j {
      assert w / 0x100 / 0x100 == w / 0x1_0000 && w / 0x1_0000 / 0x100 == w / 0x100_0000;
    } else {
      assert forall i :: 0 <= i < BSIZE && i / 4 != j ==> r[i] == b[i];
    }
  }

  // ---- Ownership ----

  ghost predicate Shape(sb: Super, data: seq<Block>, used: seq<bool>, ino: seq<Inode>) {
    && |data| == |used| == sb.size < UINT && 0 < sb.nmeta <= sb.size
    && (forall b :: 0 <= b < |data| ==> |data[b]| == BSIZE)
    && (forall i :: 0 <= i < |ino| ==> |ino[i].addrs| == NDIRECT + 1)
  }

  ghost predicate IsSlot(ino: seq<Inode>, s: Slot) {
    s.inum < |ino| && s.k < NSLOTS
  }

  /** The block address a slot holds, 0 for none. */
  ghost function Addr(data: seq<Block>, ino: seq<Inode>, s: Slot): nat
    requires IsSlot(ino, s) && |ino[s.inum].addrs| == NDIRECT + 1
  {
    var a := ino[s.inum].addrs;
    if s.k <= NDIRECT then a[s.k]
    else if a[NDIRECT] == 0 || a[NDIRECT] >= |data| || |data[a[NDIRECT]]| != BSIZE then 0
    else Word(data[a[NDIRECT]], s.k - NDIRECT - 1)
  }

  /** The owner of the block a slot points to is that slot. */
  ghost predicate SlotOk(data: seq<Block>, ino: seq<Inode>, own: map<nat, Slot>, s: Slot) {
    IsSlot(ino, s) && |ino[s.inum].addrs| == NDIRECT + 1 && Addr(data, ino, s) != 0 ==>
      Addr(data, ino, s) in own && own[Addr(data, ino, s)] == s
  }

  /** A block beyond the metadata is marked used exactly if a slot owns it. */
  ghost predicate BlockOk(sb: Super, data: seq<Block>, used: seq<bool>, ino: seq<Inode>, own: map<nat, Slot>, b: nat) {
    && (b in own ==>
          && sb.nmeta <= b < sb.size && IsSlot(ino, own[b])
          && (|ino[own[b].inum].addrs| == NDIRECT + 1 ==> Addr(data, ino, own[b]) == b))
    && (b < sb.size && b < |used| ==> (used[b] <==> b < sb.nmeta || b in own))
  }

  /** All block addresses held by inodes and indirect blocks are distinct, in range and
      marked in the bitmap, and nothing else beyond the metadata is. */
  ghost predicate FsOk(sb: Super, data: seq<Block>, used: seq<bool>, ino: seq<Inode>, own: map<nat, Slot>) {
    && Shape(sb, data, used, ino)
    && (forall s :: SlotOk(data, ino, own, s))
    && (forall b: nat :: BlockOk(sb, data, used, ino, own, b))
  }

  /** Two slots never share a block. */
  lemma {:induction false} NoSharing(sb: Super, data: seq<Block>, used: seq<bool>, ino: seq<Inode>,
                                     own: map<nat, Slot>, s: Slot, t: Slot)
    requires FsOk(sb, data, used, ino, own) && IsSlot(ino, s) && IsSlot(ino, t) && s != t
    ensures Addr(data, ino, s) == Addr(data, ino, t) ==> Addr(data, ino, s) == 0
    ensures Addr(data, ino, s) != 0 ==> sb.nmeta <= Addr(data, ino, s) < sb.size && used[Addr(data, ino, s)]
  {
    assert SlotOk(data, ino, own, s) && SlotOk(data, ino, own, t);
    assert BlockOk(sb, data, used, ino, own, Addr(data, ino, s));
  }

  // ---- What a file holds ----

  function SlotOf(bn: nat): nat {
    if bn < NDIRECT then bn else bn + 1
  }

  /** Block `bn` of a file; empty for a hole. */
  ghost function FileBlock(data: seq<Block>, ino: seq<Inode>, i: nat, bn: nat): Block
    requires i < |ino| && bn < MAXFILE && |ino[i].addrs| == NDIRECT + 1
  {
    var a := Addr(data, ino, Slot(i, SlotOf(bn)));
    if a == 0 || a >= |data| then [] else data[a]
  }

  /** All files hold the same, but for block `bn` of file `i`, which holds `blk`. */
  ghost predicate OneBlock(sb: Super, data: seq<Block>, ino: seq<Inode>, data': seq<Block>, ino': seq<Inode>, i: nat,
                           bn: nat, blk: Block) {
    && |ino'| == |ino|
    && (forall j :: 0 <= j < |ino| ==> ino'[j].size == ino[j].size && |ino'[j].addrs| == |ino[j].addrs|
                                       && (j != i ==> ino'[j] == ino[j]))
    && (forall j: nat, b: nat ::
          j < |ino| && b < MAXFILE && |ino[j].addrs| == NDIRECT + 1 ==>
            FileBlock(data', ino', j, b) == if j == i && b == bn then blk else FileBlock(data, ino, j, b))
  }

  // ---- Changes ----

  /** The file block a slot is for; MAXFILE for the address of the indirect block. */
  function BlockOf(k: nat): nat {
    if k < NDIRECT then k else if k == NDIRECT then MAXFILE else k - 1
  }

  /** Only slot `s` holds another address than before. */
  ghost predicate OneAddr(data: seq<Block>, ino: seq<Inode>, data': seq<Block>, ino': seq<Inode>, s: Slot, b: nat) {
    && |ino'| == |ino|
    && (forall j :: 0 <= j < |ino| ==> |ino[j].addrs| == |ino'[j].addrs| == NDIRECT + 1 && ino'[j].size == ino[j].size
                                       && (j != s.inum ==> ino'[j] == ino[j]))
    && forall t :: IsSlot(ino, t) ==> Addr(data', ino', t) == if t == s then b else Addr(data, ino, t)
  }

  /** A free block given to an empty slot. */
  lemma {:induction false} GiveOk(sb: Super, data: seq<Block>, used: seq<bool>, ino: seq<Inode>, own: map<nat, Slot>,
                                  data': seq<Block>, ino': seq<Inode>, s: Slot, b: nat)
    requires FsOk(sb, data, used, ino, own) && IsSlot(ino, s) && Addr(data, ino, s) == 0
    requires b < sb.size && !used[b] && Shape(sb, data', used[b := true], ino') && OneAddr(data, ino, data', ino', s, b)
    requires forall x :: 0 <= x < |data| && x != b && data'[x] != data[x] ==> x in own && own[x].k == NDIRECT
    ensures FsOk(sb, data', used[b := true], ino', own[b := s])
    ensures OneBlock(sb, data, ino, data', ino', s.inum, BlockOf(s.k), data'[b])
  {
    var own', used' := own[b := s], used[b := true];
    assert BlockOk(sb, data, used, ino, own, b);
    forall t ensures SlotOk(data', ino', own', t) { assert SlotOk(data, ino, own, t); }
    forall x: nat ensures BlockOk(sb, data', used', ino', own', x) { assert BlockOk(sb, data, used, ino, own, x); }
    forall j: nat, n: nat | j < |ino| && n < MAXFILE
      ensures FileBlock(data', ino', j, n) == if j == s.inum && n == BlockOf(s.k) then data'[b]
              else FileBlock(data, ino, j, n)
    {
      var t := Slot(j, SlotOf(n));
      assert SlotOk(data, ino, own, t);
      assert BlockOk(sb, data, used, ino, own, Addr(data, ino, t));
    }
  }

  /** bmap gives a block to a direct slot or takes one for the indirect block. */
  lemma {:induction false} GiveDirectOk(sb: Super, data: seq<Block>, used: seq<bool>, ino: seq<Inode>,
                                        own: map<nat, Slot>, i: nat, k: nat, b: nat)
    requires FsOk(sb, data, used, ino, own) && i < |ino| && k <= NDIRECT && ino[i].addrs[k] == 0 && b < sb.size
             && !used[b]
    ensures var data', ino' := data[b := NoData()], ino[i := ino[i].(addrs := ino[i].addrs[k := b])];
            && FsOk(sb, data', used[b := true], ino', own[b := Slot(i, k)])
            && OneAddr(data, ino, data', ino', Slot(i, k), b)
            && OneBlock(sb, data, ino, data', ino', i, BlockOf(k), NoData())
  {
    var data', ino', s := data[b := NoData()], ino[i := ino[i].(addrs := ino[i].addrs[k := b])], Slot(i, k);
    assert BlockOk(sb, data, used, ino, own, b);
    forall t | IsSlot(ino, t) ensures Addr(data', ino', t) == if t == s then b else Addr(data, ino, t) {
      var q := Slot(t.inum, NDIRECT);
      assert SlotOk(data, ino, own, q) && BlockOk(sb, data, used, ino, own, Addr(data, ino, q));
    }
    GiveOk(sb, data, used, ino, own, data', ino', s, b);
  }

  /** bmap gives a block to a word of the indirect block. */
  lemma {:induction false} GiveWordOk(sb: Super, data: seq<Block>, used: seq<bool>, ino: seq<Inode>,
                                      own: map<nat, Slot>, i: nat, j: nat, b: nat)
    requires FsOk(sb, data, used, ino, own) && i < |ino| && j < NINDIRECT && ino[i].addrs[NDIRECT] != 0
    requires Addr(data, ino, Slot(i, NDIRECT + 1 + j)) == 0 && b < sb.size && !used[b]
    ensures var p := ino[i].addrs[NDIRECT];
            && p < |data| && p != b
            && var data' := data[b := NoData()][p := PutWord(data[p], j, b)];
               && FsOk(sb, data', used[b := true], ino, own[b := Slot(i, NDIRECT + 1 + j)])
               && OneAddr(data, ino, data', ino, Slot(i, NDIRECT + 1 + j), b)
               && OneBlock(sb, data, ino, data', ino, i, NDIRECT + j, NoData())
  {
    var p, s := ino[i].addrs[NDIRECT], Slot(i, NDIRECT + 1 + j);
    assert SlotOk(data, ino, own, Slot(i, NDIRECT)) && BlockOk(sb, data, used, ino, own, p)
      && BlockOk(sb, data, used, ino, own, b);
    var data' := data[b := NoData()][p := PutWord(data[p], j, b)];
    forall t | IsSlot(ino, t) ensures Addr(data', ino, t) == if t == s then b else Addr(data, ino, t) {
      var q := Slot(t.inum, NDIRECT);
      assert SlotOk(data, ino, own, q) && BlockOk(sb, data, used, ino, own, Addr(data, ino, q));
      if t.k > NDIRECT { WordOfPut(data[p], j, b, t.k - NDIRECT - 1); }
    }
    GiveOk(sb, data, used, ino, own, data', ino, s, b);
  }

  /** Bytes written into a block of a file. */
  lemma {:induction false} FillOk(sb: Super, data: seq<Block>, used: seq<bool>, ino: seq<Inode>, own: map<nat, Slot>,
                                  i: nat, bn: nat, blk: Block)
    requires FsOk(sb, data, used, ino, own) && i < |ino| && bn < MAXFILE && |blk| == BSIZE
    requires Addr(data, ino, Slot(i, SlotOf(bn))) != 0
    ensures var a := Addr(data, ino, Slot(i, SlotOf(bn)));
            && a < |data| && FsOk(sb, data[a := blk], used, ino, own)
            && OneBlock(sb, data, ino, data[a := blk], ino, i, bn, blk)
  {
    var s := Slot(i, SlotOf(bn));
    var a := Addr(data, ino, s);
    assert SlotOk(data, ino, own, s) && BlockOk(sb, data, used, ino, own, a);
    var data' := data[a := blk];
    forall t | IsSlot(ino, t)
      ensures Addr(data', ino, t) == Addr(data, ino, t) && (t != s ==> Addr(data, ino, t) != a)
    {
      assert SlotOk(data, ino, own, t) && SlotOk(data, ino, own, Slot(t.inum, NDIRECT));
    }
    forall t ensures SlotOk(data', ino, own, t) { assert SlotOk(data, ino, own, t); }
    forall x: nat ensures BlockOk(sb, data', used, ino, own, x) { assert BlockOk(sb, data, used, ino, own, x); }
  }

  /** Owned by one of the slots lo..hi-1 of the inode. */
  ghost predicate Among(own: map<nat, Slot>, b: nat, i: nat, lo: nat, hi: nat) {
    b in own && own[b].inum == i && lo <= own[b].k < hi
  }

  ghost function Released(own: map<nat, Slot>, i: nat, lo: nat, hi: nat): map<nat, Slot> {
    map b | b in own && !Among(own, b, i, lo, hi) :: own[b]
  }

  /** Exactly the bits of those blocks are cleared. */
  ghost predicate BitsCleared(used: seq<bool>, used': seq<bool>, own: map<nat, Slot>, i: nat, lo: nat, hi: nat) {
    |used'| == |used| && forall b: nat :: b < |used| ==> used'[b] == (used[b] && !Among(own, b, i, lo, hi))
  }

  /** The inode with direct addresses lo..hi-1 cleared, and the indirect one if hi is beyond it. */
  ghost predicate AddrsCleared(ino: seq<Inode>, ino': seq<Inode>, i: nat, lo: nat, hi: nat) {
    && |ino'| == |ino| && (forall j :: 0 <= j < |ino| && j != i ==> ino'[j] == ino[j])
    && i < |ino| && |ino[i].addrs| == |ino'[i].addrs| == NDIRECT + 1
    && forall k :: 0 <= k <= NDIRECT ==> ino'[i].addrs[k] == if lo <= k < hi then 0 else ino[i].addrs[k]
  }

  /** itrunc gives back the blocks of a range of slots. */
  lemma {:induction false} ReleaseOk(sb: Super, data: seq<Block>, used: seq<bool>, ino: seq<Inode>, own: map<nat, Slot>,
                                     used': seq<bool>, ino': seq<Inode>, i: nat, lo: nat, hi: nat)
    requires FsOk(sb, data, used, ino, own) && lo <= hi && (hi <= NDIRECT || (hi == NSLOTS && lo <= NDIRECT))
    requires BitsCleared(used, used', own, i, lo, hi) && AddrsCleared(ino, ino', i, lo, hi)
    ensures FsOk(sb, data, used', ino', Released(own, i, lo, hi))
    ensures forall j: nat, n: nat :: j < |ino| && n < MAXFILE && j != i ==>
              FileBlock(data, ino', j, n) == FileBlock(data, ino, j, n)
  {
    var own' := Released(own, i, lo, hi);
    forall t | IsSlot(ino, t)
      ensures Addr(data, ino', t) == if t.inum == i && lo <= t.k < hi then 0 else Addr(data, ino, t) { }
    forall t ensures SlotOk(data, ino', own', t) { assert SlotOk(data, ino, own, t); }
    forall x: nat ensures BlockOk(sb, data, used', ino', own', x) { assert BlockOk(sb, data, used, ino, own, x); }
  }
}
