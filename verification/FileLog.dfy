/** What a write to a file logs, in terms of the blocks that the slots of inodes own before and
    after it. */
module FileLog {
  import opened Counting
  import opened FileModel

  /** The block that holds the bit of block `b`. */
  function BitmapBlock(sb: Super, b: nat): nat {
    b / 8192 + sb.bmapstart
  }

  /** The block that holds inode `i`. */
  function InodeBlock(sb: Super, i: nat): nat {
    i / 16 + sb.inodestart
  }

  ghost function Bits(sb: Super, bs: set<nat>): set<nat> {
    set b | b in bs :: BitmapBlock(sb, b)
  }

  /** The blocks allocated from `own0` to `own`. */
  ghost function Fresh(own0: map<nat, Slot>, own: map<nat, Slot>): set<nat> {
    own.Keys - own0.Keys
  }

  /** The indirect block of file `i`, if it has one. */
  ghost function Ind(own: map<nat, Slot>, i: nat): set<nat> {
    set b | b in own && own[b] == Slot(i, NDIRECT)
  }

  /** The data blocks of file blocks lo..hi-1. */
  ghost function Touches(own: map<nat, Slot>, i: nat, lo: nat, hi: nat): set<nat> {
    set b | b in own && own[b].inum == i && own[b].k != NDIRECT && lo <= BlockOf(own[b].k) < hi
  }

  /** A block was allocated for a word of the indirect block. */
  ghost predicate GaveWord(own0: map<nat, Slot>, own: map<nat, Slot>, i: nat) {
    exists b :: b in Fresh(own0, own) && own[b].inum == i && own[b].k > NDIRECT
  }

  /** What the allocations of bmap log: the new blocks, zeroed, their bits, and the indirect
      block if a word of it has changed. */
  ghost function AllocLog(sb: Super, own0: map<nat, Slot>, own: map<nat, Slot>, i: nat): set<nat> {
    Fresh(own0, own) + Bits(sb, Fresh(own0, own)) + if GaveWord(own0, own, i) then Ind(own, i) else {}
  }

  /** Nothing is given back, and what is allocated is for the indirect block of file `i` or for
      its blocks lo..hi-1. */
  ghost predicate Grew(own0: map<nat, Slot>, own: map<nat, Slot>, i: nat, lo: nat, hi: nat) {
    && (forall b :: b in own0 ==> b in own && own[b] == own0[b])
    && (forall b :: b in Fresh(own0, own) ==>
          own[b].inum == i && own[b].k < NSLOTS && (own[b].k == NDIRECT || lo <= BlockOf(own[b].k) < hi))
  }

  /** A slot owns one block, and a file with words in an indirect block has that block. */
  ghost predicate OwnOk(own: map<nat, Slot>, i: nat) {
    && (forall a, b :: a in own && b in own && own[a] == own[b] ==> a == b)
    && (forall b :: b in own && own[b].inum == i && own[b].k > NDIRECT ==> Ind(own, i) != {})
  }

  lemma {:induction false} OwnOkOf(sb: Super, data: seq<Block>, used: seq<bool>, ino: seq<Inode>, own: map<nat, Slot>,
                                   i: nat)
    requires FsOk(sb, data, used, ino, own)
    ensures OwnOk(own, i)
  {
    forall a, b | a in own && b in own && own[a] == own[b] ensures a == b {
      assert BlockOk(sb, data, used, ino, own, a) && BlockOk(sb, data, used, ino, own, b);
    }
    forall b | b in own && own[b].inum == i && own[b].k > NDIRECT ensures Ind(own, i) != {} {
      assert BlockOk(sb, data, used, ino, own, b) && SlotOk(data, ino, own, Slot(i, NDIRECT));
      assert BlockOk(sb, data, used, ino, own, 0);
      assert ino[i].addrs[NDIRECT] in Ind(own, i);
    }
  }

  lemma {:induction false} GrewWider(own0: map<nat, Slot>, own: map<nat, Slot>, i: nat, lo: nat, hi: nat, hi': nat)
    requires Grew(own0, own, i, lo, hi) && hi <= hi'
    ensures Grew(own0, own, i, lo, hi')
  {
  }

  /** Allocations for `lo`.. and then from `mid` on; `lo'` may be less than both. */
  lemma {:induction false} GrewJoin(own0: map<nat, Slot>, own1: map<nat, Slot>, own2: map<nat, Slot>, i: nat,
                                    lo: nat, mid: nat, hi: nat, lo': nat, hi': nat)
    requires Grew(own0, own1, i, lo, mid) && Grew(own1, own2, i, mid, hi) && mid <= hi' && hi <= hi'
    requires (lo < mid ==> lo' <= lo) && (mid < hi ==> lo' <= mid)
    ensures Grew(own0, own2, i, lo', hi')
  {
    forall b | b in Fresh(own0, own2)
      ensures own2[b].inum == i && own2[b].k < NSLOTS && (own2[b].k == NDIRECT || lo' <= BlockOf(own2[b].k) < hi')
    {
      assert b in own1 ==> b in Fresh(own0, own1);
      assert b !in own1 ==> b in Fresh(own1, own2);
    }
  }

  /** The indirect block stays the same once there is one. */
  lemma {:induction false} IndStays(own1: map<nat, Slot>, own2: map<nat, Slot>, i: nat)
    requires OwnOk(own2, i) && (forall b :: b in own1 ==> b in own2 && own2[b] == own1[b]) && Ind(own1, i) != {}
    ensures Ind(own2, i) == Ind(own1, i)
  {
    var p :| p in Ind(own1, i);
    forall b | b in Ind(own2, i) ensures b in Ind(own1, i) { assert own2[b] == own2[p]; }
  }

  lemma {:induction false} FreshTwice(own0: map<nat, Slot>, own1: map<nat, Slot>, own2: map<nat, Slot>)
    requires (forall b :: b in own0 ==> b in own1) && (forall b :: b in own1 ==> b in own2)
    ensures Fresh(own0, own2) == Fresh(own0, own1) + Fresh(own1, own2)
  {
  }

  lemma {:induction false} BitsBoth(sb: Super, a: set<nat>, b: set<nat>)
    ensures Bits(sb, a + b) == Bits(sb, a) + Bits(sb, b)
  {
  }

  lemma {:induction false} WordTwice(own0: map<nat, Slot>, own1: map<nat, Slot>, own2: map<nat, Slot>, i: nat)
    requires (forall b :: b in own0 ==> b in own1) && (forall b :: b in own1 ==> b in own2 && own2[b] == own1[b])
    ensures GaveWord(own0, own2, i) <==> GaveWord(own0, own1, i) || GaveWord(own1, own2, i)
  {
    FreshTwice(own0, own1, own2);
    hide Fresh;
    if GaveWord(own0, own1, i) {
      var b :| b in Fresh(own0, own1) && own1[b].inum == i && own1[b].k > NDIRECT;
      assert b in Fresh(own0, own2);
    }
    if GaveWord(own1, own2, i) {
      var b :| b in Fresh(own1, own2) && own2[b].inum == i && own2[b].k > NDIRECT;
      assert b in Fresh(own0, own2);
    }
    if GaveWord(own0, own2, i) {
      var b :| b in Fresh(own0, own2) && own2[b].inum == i && own2[b].k > NDIRECT;
      assert b in Fresh(own0, own1) || b in Fresh(own1, own2);
    }
  }

  /** What two calls log is what they log together. */
  lemma {:induction false} LogTwice(sb: Super, own0: map<nat, Slot>, own1: map<nat, Slot>, own2: map<nat, Slot>, i: nat)
    requires (forall b :: b in own0 ==> b in own1 && own1[b] == own0[b])
             && (forall b :: b in own1 ==> b in own2 && own2[b] == own1[b])
    requires OwnOk(own1, i) && OwnOk(own2, i)
    ensures AllocLog(sb, own0, own2, i) == AllocLog(sb, own0, own1, i) + AllocLog(sb, own1, own2, i)
  {
    FreshTwice(own0, own1, own2);
    BitsBoth(sb, Fresh(own0, own1), Fresh(own1, own2));
    WordTwice(own0, own1, own2, i);
    if GaveWord(own0, own1, i) { WordInd(own0, own1, own2, i); }
    hide Fresh, Bits, GaveWord, Ind, OwnOk;
  }

  lemma {:induction false} WordInd(own0: map<nat, Slot>, own1: map<nat, Slot>, own2: map<nat, Slot>, i: nat)
    requires (forall b :: b in own1 ==> b in own2 && own2[b] == own1[b]) && OwnOk(own1, i) && OwnOk(own2, i)
             && GaveWord(own0, own1, i)
    ensures Ind(own2, i) == Ind(own1, i)
  {
    var b :| b in Fresh(own0, own1) && own1[b].inum == i && own1[b].k > NDIRECT;
    IndStays(own1, own2, i);
  }

  lemma {:induction false} TouchesSame(own1: map<nat, Slot>, own2: map<nat, Slot>, i: nat, lo: nat, mid: nat, hi: nat)
    requires Grew(own1, own2, i, mid, hi)
    ensures Touches(own2, i, lo, mid) == Touches(own1, i, lo, mid)
  {
    forall b | b in Touches(own2, i, lo, mid) ensures b in Touches(own1, i, lo, mid) {
      assert b !in own1 ==> b in Fresh(own1, own2);
    }
  }

  // ---- How much that is ----

  lemma {:induction false} TouchesSplit(own: map<nat, Slot>, i: nat, lo: nat, mid: nat, hi: nat)
    requires lo <= mid <= hi
    ensures Touches(own, i, lo, hi) == Touches(own, i, lo, mid) + Touches(own, i, mid, hi)
  {
  }

  /** One file block has one data block. */
  lemma {:induction false} TouchesOne(own: map<nat, Slot>, i: nat, v: nat, a: nat)
    requires OwnOk(own, i) && a in Touches(own, i, v, v + 1)
    ensures Touches(own, i, v, v + 1) == {a}
  {
    var t := Touches(own, i, v, v + 1);
    forall b | b in t ensures b == a {
      SameSlot(own[b].k, own[a].k);
      assert own[b] == own[a];
    }
  }

  lemma {:induction false} TouchesFew(own: map<nat, Slot>, i: nat, v: nat)
    requires OwnOk(own, i)
    ensures Touches(own, i, v, v) == {} && |Touches(own, i, v, v + 1)| <= 1
  {
    var t := Touches(own, i, v, v + 1);
    if x :| x in t { TouchesOne(own, i, v, x); }
  }

  lemma {:induction false} SameSlot(k: nat, l: nat)
    requires k != NDIRECT && l != NDIRECT && BlockOf(k) == BlockOf(l)
    ensures k == l
  {
  }

  lemma {:induction false} TouchesBound(own: map<nat, Slot>, i: nat, lo: nat, hi: nat)
    requires OwnOk(own, i) && lo <= hi
    ensures |Touches(own, i, lo, hi)| <= hi - lo
    decreases hi - lo
  {
    hide Touches, OwnOk;
    if lo == hi {
      TouchesFew(own, i, lo);
    } else {
      TouchesBound(own, i, lo, hi - 1);
      TouchesSplit(own, i, lo, hi - 1, hi);
      TouchesFew(own, i, hi - 1);
      CardSum(Touches(own, i, lo, hi - 1), Touches(own, i, hi - 1, hi));
    }
  }

  lemma {:induction false} IndBound(own: map<nat, Slot>, i: nat)
    requires OwnOk(own, i)
    ensures |Ind(own, i)| <= 1
  {
    if x :| x in Ind(own, i) { assert Ind(own, i) == {x}; }
  }

  lemma {:induction false} BitsBound(sb: Super, bs: set<nat>)
    ensures |Bits(sb, bs)| <= |bs|
  {
    if x :| x in bs {
      BitsBound(sb, bs - {x});
      assert Bits(sb, bs) == Bits(sb, bs - {x}) + {BitmapBlock(sb, x)};
    } else {
      assert Bits(sb, bs) == {};
    }
  }

  /** A write of file blocks lo..hi-1 logs at most two blocks for each of them, less one if the
      first was there before, and two more for the indirect block. */
  lemma {:induction false} LogBound(sb: Super, own0: map<nat, Slot>, own: map<nat, Slot>, i: nat, lo: nat, hi: nat,
                                    first: nat)
    requires OwnOk(own, i) && Grew(own0, own, i, first, hi) && lo <= first <= hi
    ensures |Touches(own, i, lo, hi) + AllocLog(sb, own0, own, i)| <= 2 * (hi - lo) + 2 - (first - lo)
  {
    var t, f, ind := Touches(own, i, lo, hi), Touches(own, i, first, hi), Ind(own, i);
    TouchesBound(own, i, lo, hi);
    TouchesBound(own, i, first, hi);
    IndBound(own, i);
    FreshWhere(own0, own, i, lo, first, hi);
    BitsBound(sb, f + ind);
    BitsBoth(sb, Fresh(own0, own), f + ind);
    assert Fresh(own0, own) + (f + ind) == f + ind;
    hide Fresh, Bits, Touches, Ind, GaveWord, Grew, OwnOk;
    var all := t + ind + Bits(sb, f + ind);
    CardMono(t + AllocLog(sb, own0, own, i), all);
    CardSum(f, ind);
    CardSum(t, ind);
    CardSum(t + ind, Bits(sb, f + ind));
  }

  lemma {:induction false} CardSum(a: set<nat>, b: set<nat>)
    ensures |a + b| <= |a| + |b|
  {
  }

  lemma {:induction false} FreshWhere(own0: map<nat, Slot>, own: map<nat, Slot>, i: nat, lo: nat, first: nat, hi: nat)
    requires Grew(own0, own, i, first, hi) && lo <= first
    ensures Fresh(own0, own) <= Touches(own, i, first, hi) + Ind(own, i)
            && Touches(own, i, first, hi) <= Touches(own, i, lo, hi)
  {
    forall b | b in Fresh(own0, own) ensures b in Touches(own, i, first, hi) + Ind(own, i) {
      assert own[b].k == NDIRECT ==> own[b] == Slot(i, NDIRECT);
    }
  }
}
