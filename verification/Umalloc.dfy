/** malloc, free and morecore of the user library. */
module Umalloc {
  import opened FreeList

  const MINCORE: nat := 4096
  const CORELIMIT: nat := 0x800_0000
  const MAXREQUEST: nat := 0x7FFF_FFE0

  /** The argument of sbrk is an int. */
  function ToInt(x: nat): int {
    var y := x % 0x1_0000_0000;
    if y < 0x8000_0000 then y else y - 0x1_0000_0000
  }

  /** The units of a request, with the header. */
  function Units(nbytes: nat): (n: nat)
    ensures nbytes + 16 <= 16 * n < nbytes + 32
  {
    (nbytes + 15) / 16 + 1
  }

  /** The number of units morecore asks for. */
  function CoreUnits(nbytes: nat): nat {
    if Units(nbytes) < MINCORE then MINCORE else Units(nbytes)
  }

  lemma {:induction false} UnitsIff(nbytes: nat)
    requires nbytes < 0x1_0000_0000
    ensures 0 < Units(nbytes) <= 0x1000_0001 && (Units(nbytes) < CORELIMIT <==> nbytes <= MAXREQUEST)
  {
  }

  /** morecore gets the memory it notes in the header exactly for requests up to MAXREQUEST
      bytes: sbrk is asked for the right number of bytes for these and no others. */
  lemma {:induction false} RequestIff(nbytes: nat)
    requires nbytes < 0x1_0000_0000
    ensures ToInt(16 * CoreUnits(nbytes)) == 16 * CoreUnits(nbytes) <==> nbytes <= MAXREQUEST
  {
    UnitsIff(nbytes);
    hide Units;
  }

  /** The units of the heap are those there were and those between the old and the new break. */
  ghost predicate FromSbrk(owner: Heap, owner': Heap, brk: nat, brk': nat) {
    brk <= brk' && forall u: nat :: u in owner' <==> u in owner || brk <= u < brk'
  }

  /** Steps along a circle of `n` places from `i` to `k`. */
  function Dist(n: nat, i: nat, k: nat): nat
    requires i < n && k < n
  {
    if i <= k then k - i else n - (i - k)
  }

  /** Where in the list a block belongs. */
  ghost function Spot(fl: seq<nat>, h: nat, n: nat): (t: nat)
    requires 0 < n <= |fl| && Ascending(fl) && fl[0] < h && h !in fl && (n < |fl| ==> h < fl[n])
    ensures Place(fl, t, h)
  {
    if fl[n - 1] < h then n - 1 else Spot(fl, h, n - 1)
  }

  lemma {:induction false} OnlyPlace(fl: seq<nat>, t: nat, k: nat, h: nat)
    requires Ascending(fl) && Place(fl, t, h) && k < |fl|
    ensures k == t || (if k + 1 < |fl| then !(fl[k] < h < fl[k + 1]) else !(fl[k] < h))
  {
  }

  /** Every free block is too small for `n` units. */
  ghost predicate NoFit(size: Heap, fl: seq<nat>, n: nat) {
    forall j :: 0 <= j < |fl| ==> fl[j] in size && size[fl[j]] < n
  }

  /** The blocks from after position `k0` to before position `k` are too small. */
  ghost predicate AllSmall(size: Heap, fl: seq<nat>, n: nat, k0: nat, k: nat)
    requires k0 < |fl| && k < |fl|
  {
    forall j: nat :: j < |fl| && Dist(|fl|, j, k0) > Dist(|fl|, k, k0) ==> fl[j] in size && size[fl[j]] < n
  }

  lemma {:induction false} SmallNext(size: Heap, fl: seq<nat>, n: nat, k0: nat, k: nat)
    requires k0 < |fl| && k < |fl| && AllSmall(size, fl, n, k0, k) && fl[k] in size && size[fl[k]] < n
    ensures k != k0 ==> AllSmall(size, fl, n, k0, Next(|fl|, k)) && Dist(|fl|, Next(|fl|, k), k0) < Dist(|fl|, k, k0)
    ensures k == k0 ==> NoFit(size, fl, n)
  {
    if k == k0 {
      forall j | 0 <= j < |fl| ensures fl[j] in size && size[fl[j]] < n {
        assert j != k ==> Dist(|fl|, j, k0) > Dist(|fl|, k, k0);
      }
    }
  }

  lemma {:induction false} SmallStart(size: Heap, fl: seq<nat>, n: nat, k0: nat)
    requires k0 < |fl|
    ensures AllSmall(size, fl, n, k0, Next(|fl|, k0))
  {
  }

  /** Allocated blocks keep their units. */
  ghost predicate KeepsLive(size: Heap, owner: Heap, size': Heap, owner': Heap, live: set<nat>) {
    && (forall h :: h in live ==> h in size && h in size' && size'[h] == size[h])
    && owner.Keys <= owner'.Keys
  }

  /** The free list, the allocated blocks and the block each unit belongs to. */
  datatype Blocks = Blocks(fl: seq<nat>, live: set<nat>, owner: Heap)

  class Allocator {
    const base: nat
    var ptr: Heap
    var size: Heap
    var freep: int
    var brk: nat
    ghost var g: Blocks

    /** Before the first call of malloc there is no list; after it the list is circular,
        ordered and coalesced, and holds freep. */
    ghost predicate Valid()
      reads this
    {
      && base < brk && (forall u :: u in g.owner ==> u < brk)
      && if freep == -1 then g.fl == [] && g.live == {} && g.owner == map[]
         else HeapOk(base, ptr, size, g.fl, g.live, g.owner) && Coalesced(size, g.fl, 0, 0) && freep in g.fl
    }

    constructor (base: nat, brk: nat)
      requires base < brk
      ensures Valid() && g.live == {} && g.owner == map[]
    {
      this.base, this.brk := base, brk;
      ptr, size, freep := map[], map[], -1;
      g := Blocks([], {}, map[]);
    }

    /** The loop of free: the list element after which `bp` belongs. */
    method FindPlace(bp: nat) returns (p: nat, ghost t: nat)
      requires Valid() && bp in g.live
      ensures Place(g.fl, t, bp) && p == g.fl[t]
    {
      assert UnitOk(size, g.fl, g.live, g.owner, bp) && Owns(size, g.owner, bp) by { assert IsBlock(g.fl, g.live, bp); }
      t := Spot(g.fl, bp, |g.fl|);
      p := freep;
      ghost var k: nat :| 0 <= k < |g.fl| && g.fl[k] == p;
      assert Linked(ptr, g.fl, k);
      while !(bp > p && bp < ptr[p])
        invariant k < |g.fl| && p == g.fl[k] && Linked(ptr, g.fl, k)
        decreases Dist(|g.fl|, k, t)
      {
        OnlyPlace(g.fl, t, k, bp);
        if p >= ptr[p] && (bp > p || bp < ptr[p]) {
          break;
        }
        k := Next(|g.fl|, k);
        p := ptr[p];
        assert Linked(ptr, g.fl, k);
      }
      OnlyPlace(g.fl, t, k, bp);
    }

    /** The headers of `bp`, its predecessor `p` and the block after `p`. */
    method Relink(p: nat, bp: nat)
      requires p in ptr && p in size && bp in size && p != bp
               && (bp + size[bp] == ptr[p] ==> ptr[p] in size && ptr[p] in ptr)
      modifies this`ptr, this`size
      ensures Relinked(old(ptr), old(size), p, bp, ptr, size)
    {
      var nx := ptr[p];
      if bp + size[bp] == nx {
        size := size[bp := size[bp] + size[nx]];
        ptr := ptr[bp := ptr[nx]];
      } else {
        ptr := ptr[bp := nx];
      }
      if p + size[p] == bp {
        size := size[p := size[p] + size[bp]];
        ptr := ptr[p := ptr[bp]];
      } else {
        ptr := ptr[p := bp];
      }
    }

    /** free of an allocated block: it becomes free, alone or as part of a larger block. */
    method Free(bp: nat)
      requires Valid() && bp in g.live
      modifies this`ptr, this`size, this`freep, this`g
      ensures Valid() && freep != -1 && g.live == old(g.live) - {bp} && g.owner.Keys == old(g.owner).Keys
      ensures KeepsLive(old(size), old(g.owner), size, g.owner, g.live)
      ensures bp in g.owner && g.owner[bp] in g.fl && g.owner[bp] in size && bp in old(size)
              && size[g.owner[bp]] >= old(size)[bp]
    {
      var p;
      ghost var t;
      p, t := FindPlace(bp);
      hide HeapOk, Coalesced, Owns, Linked, Joined, Relinked, KeepsLive;
      LiveSized(base, ptr, size, g.fl, g.live, g.owner);
      FreeFacts(base, ptr, size, g.fl, g.live, g.owner, t, bp);
      ghost var ptr1, size1, ptr', size', fl', owner' := FreeOk(base, ptr, size, g.fl, g.live, g.owner, t, bp);
      FreeHeaders(ptr, size, p, bp, ptr1, size1, ptr', size');
      Relink(p, bp);
      RelinkedOnce(old(ptr), old(size), p, bp, ptr, size, ptr', size');
      FreeKeeps(old(ptr), old(size), g.owner, p, bp, ptr, size, owner', g.live - {bp});
      freep := p;
      g := Blocks(fl', g.live - {bp}, owner');
    }

    /** morecore; `grant` is the kernel's answer to sbrk.  The list then has a block of at
        least `nu` units. */
    method Morecore(nu: nat, grant: bool) returns (ok: bool, ghost w: nat)
      requires Valid() && freep != -1 && 0 < nu < CORELIMIT
      modifies this
      ensures Valid() && freep != -1 && g.live == old(g.live) && ok == grant
      ensures KeepsLive(old(size), old(g.owner), size, g.owner, g.live)
      ensures ok ==> w < |g.fl| && g.fl[w] in size && size[g.fl[w]] >= nu
      ensures !ok ==> unchanged(this)
      ensures FromSbrk(old(g.owner), g.owner, old(brk), brk)
    {
      LiveSized(base, ptr, size, g.fl, g.live, g.owner);
      if !grant { return false, 0; }
      var n := if nu < MINCORE then MINCORE else nu;
      var hp := brk;
      GrowOk(base, ptr, size, g.fl, g.live, g.owner, hp, n);
      brk := brk + n;
      size := size[hp := n];
      g := g.(live := g.live + {hp}, owner := Added(g.owner, hp, n));
      Free(hp);
      w :| 0 <= w < |g.fl| && g.fl[w] == g.owner[hp];
      return true, w;
    }

    /** The block at position kp+1 fits exactly. */
    method TakeWhole(prevp: nat, p: nat, ghost kp: nat)
      requires Valid() && freep != -1 && kp + 1 < |g.fl| && prevp == g.fl[kp] && p == g.fl[kp + 1] && prevp in ptr
               && p in ptr
      modifies this`ptr, this`freep, this`g
      ensures Valid() && freep != -1 && p !in old(g.live) && g.live == old(g.live) + {p} && g.owner == old(g.owner)
    {
      assert Linked(ptr, g.fl, kp) && Linked(ptr, g.fl, kp + 1);
      assert p in g.fl && p !in g.live;
      hide HeapOk, Coalesced;
      UnlinkOk(base, ptr, size, g.fl, g.live, g.owner, kp);
      UnlinkApart(base, ptr, size, g.fl, g.live, g.owner, kp);
      assert Cut(g.fl, kp + 1)[kp] == prevp;
      ptr := ptr[prevp := ptr[p]];
      g := g.(fl := Cut(g.fl, kp + 1), live := g.live + {p});
      freep := prevp;
    }

    /** The block at position kp+1 is larger; its tail is taken. */
    method TakeTail(prevp: nat, p: nat, nunits: nat, ghost kp: nat) returns (r: nat)
      requires Valid() && freep != -1 && kp + 1 < |g.fl| && prevp == g.fl[kp] && p == g.fl[kp + 1] && p in size
               && 0 < nunits < size[p]
      modifies this`size, this`freep, this`g
      ensures Valid() && freep != -1 && r !in old(g.live) && g.live == old(g.live) + {r}
              && g.owner.Keys == old(g.owner).Keys
      ensures g.fl == old(g.fl) && r != p && r !in g.fl && size == old(size)[p := old(size)[p] - nunits][r := nunits]
    {
      assert IsBlock(g.fl, g.live, p) && Owns(size, g.owner, p);
      hide HeapOk, Coalesced, Owns;
      SplitOk(base, ptr, size, g.fl, g.live, g.owner, kp + 1, nunits);
      SplitApart(base, ptr, size, g.fl, g.live, g.owner, kp + 1, nunits);
      size := size[p := size[p] - nunits];
      r := p + size[p];
      size := size[r := nunits];
      g := g.(live := g.live + {r}, owner := Give(g.owner, r, r + nunits, r));
      freep := prevp;
    }

    /** The block after position `kp` fits. */
    method Take(prevp: nat, p: nat, nunits: nat, ghost kp: nat) returns (r: nat)
      requires Valid() && freep != -1 && kp < |g.fl| && prevp == g.fl[kp] && p == g.fl[Next(|g.fl|, kp)] && 0 < nunits
      requires p in size && p in ptr && size[p] >= nunits
      modifies this`ptr, this`size, this`freep, this`g
      ensures Valid() && freep != -1 && r !in old(g.live) && g.live == old(g.live) + {r} && r in size
              && size[r] == nunits
      ensures KeepsLive(old(size), old(g.owner), size, g.owner, old(g.live)) && g.owner.Keys == old(g.owner).Keys
    {
      LiveSized(base, ptr, size, g.fl, g.live, g.owner);
      assert kp + 1 < |g.fl| && Linked(ptr, g.fl, kp) && p in g.fl;
      hide HeapOk, Coalesced;
      if size[p] == nunits {
        TakeWhole(prevp, p, kp);
        r := p;
      } else {
        r := TakeTail(prevp, p, nunits, kp);
      }
    }

    /** malloc: the header of a new block of `nbytes` bytes and a header; -1 exactly when every
        free block is too small and the kernel gives no more memory; -2, before the wrong call
        of sbrk, exactly when every free block is too small for a request above MAXREQUEST. */
    method Malloc(nbytes: nat, grant: bool) returns (r: int)
      requires Valid() && nbytes < 0x1_0000_0000
      modifies this
      ensures Valid() && FromSbrk(old(g.owner), g.owner, old(brk), brk)
      ensures r == -1 <==> NoFit(old(size), old(g.fl), Units(nbytes)) && nbytes <= MAXREQUEST && !grant
      ensures r == -2 <==> NoFit(old(size), old(g.fl), Units(nbytes)) && nbytes > MAXREQUEST
      ensures r < 0 ==> g.live == old(g.live) && g.owner == old(g.owner) && (r == -1 || r == -2)
      ensures r >= 0 ==> r !in old(g.live) && g.live == old(g.live) + {r} && r in size && size[r] == Units(nbytes)
      ensures KeepsLive(old(size), old(g.owner), size, g.owner, old(g.live))
    {
      var nunits := Units(nbytes);
      UnitsIff(nbytes);
      if freep == -1 {
        ptr, size, freep := ptr[base := base], size[base := 0], base;
        g := g.(fl := [base]);
      }
      r := Search(nunits, grant);
    }

    /** One time round the list, from after freep: the first block that fits, or none. */
    method Scan(nunits: nat) returns (found: bool, prevp: nat, p: nat, ghost kp: nat, ghost k0: nat)
      requires Valid() && freep != -1
      ensures kp < |g.fl| && prevp == g.fl[kp] && p == g.fl[Next(|g.fl|, kp)] && p in size && p in ptr
      ensures found <==> size[p] >= nunits
      ensures found <==> !NoFit(size, g.fl, nunits)
      ensures k0 < |g.fl| && g.fl[k0] == freep && AllSmall(size, g.fl, nunits, k0, Next(|g.fl|, kp))
    {
      hide HeapOk, AllSmall, Dist, Coalesced;
      LiveSized(base, ptr, size, g.fl, g.live, g.owner);
      prevp := freep;
      k0 := FirstAt(g.fl, freep);
      kp := k0;
      SmallStart(size, g.fl, nunits, k0);
      ListLink(base, ptr, size, g.fl, g.live, g.owner, kp);
      p := ptr[prevp];
      while true
        invariant kp < |g.fl| && prevp == g.fl[kp] && p == g.fl[Next(|g.fl|, kp)]
        invariant AllSmall(size, g.fl, nunits, k0, Next(|g.fl|, kp))
        decreases Dist(|g.fl|, Next(|g.fl|, kp), k0)
      {
        ghost var k := Next(|g.fl|, kp);
        ListLink(base, ptr, size, g.fl, g.live, g.owner, k);
        if size[p] >= nunits {
          return true, prevp, p, kp, k0;
        }
        SmallNext(size, g.fl, nunits, k0, k);
        if p == freep {
          assert k == k0;
          return false, prevp, p, kp, k0;
        }
        prevp, kp := p, k;
        p := ptr[p];
      }
    }

    /** The loop of malloc.  The scan after a successful morecore always finds a block. */
    method Search(nunits: nat, grant: bool) returns (r: int)
      requires Valid() && freep != -1 && 0 < nunits
      modifies this
      ensures Valid() && FromSbrk(old(g.owner), g.owner, old(brk), brk)
      ensures r == -1 <==> NoFit(old(size), old(g.fl), nunits) && nunits < CORELIMIT && !grant
      ensures r == -2 <==> NoFit(old(size), old(g.fl), nunits) && nunits >= CORELIMIT
      ensures r < 0 ==> unchanged(this) && (r == -1 || r == -2)
      ensures r >= 0 ==> r !in old(g.live) && g.live == old(g.live) + {r} && r in size && size[r] == nunits
      ensures KeepsLive(old(size), old(g.owner), size, g.owner, old(g.live))
    {
      hide HeapOk, Coalesced, KeepsLive, NoFit, AllSmall;
      LiveSized(base, ptr, size, g.fl, g.live, g.owner);
      KeepsAll(size, g.owner, g.live);
      var found, prevp, p;
      ghost var kp, k0, w;
      found, prevp, p, kp, k0 := Scan(nunits);
      if !found {
        if nunits >= CORELIMIT { return -2; }
        var ok;
        ok, w := Morecore(nunits, grant);
        if !ok { return -1; }
        found, prevp, p, kp, k0 := Scan(nunits);
        Fits(size, g.fl, nunits, w);
      }
      ghost var size1, owner1 := size, g.owner;
      r := Take(prevp, p, nunits, kp);
      KeepsTrans(old(size), old(g.owner), size1, owner1, size, g.owner, old(g.live));
    }
  }

  lemma {:induction false} Fits(size: Heap, fl: seq<nat>, n: nat, w: nat)
    requires w < |fl| && fl[w] in size && size[fl[w]] >= n
    ensures !NoFit(size, fl, n)
  {
  }

  ghost function FirstAt(fl: seq<nat>, x: nat): (k: nat)
    requires x in fl
    ensures k < |fl| && fl[k] == x
  {
    var k: nat :| k < |fl| && fl[k] == x;
    k
  }

  /** Linking in a block and joining it with the next and the previous one keeps the heap in
      order. */
  lemma {:induction false} FreeOk(base: nat, ptr: Heap, size: Heap, fl: seq<nat>, live: set<nat>, owner: Heap, t: nat,
                                  bp: nat)
    returns (ptr1: Heap, size1: Heap, ptr': Heap, size': Heap, fl': seq<nat>, owner': Heap)
    requires HeapOk(base, ptr, size, fl, live, owner) && Coalesced(size, fl, 0, 0) && bp in live && Place(fl, t, bp)
             && Linked(ptr, fl, t)
    requires bp in size && fl[t] in size && bp in owner && owner[bp] == bp
    ensures HeapOk(base, ptr', size', fl', live - {bp}, owner') && Coalesced(size', fl', 0, 0) && fl[t] in fl'
    ensures Joined(ptr[bp := ptr[fl[t]]][fl[t] := bp], size, bp, ptr1, size1) && Joined(ptr1, size1, fl[t], ptr', size')
    ensures owner'.Keys == owner.Keys && owner'[bp] in fl' && owner'[bp] in size' && size'[owner'[bp]] >= size[bp]
  {
    hide HeapOk, Coalesced;
    InsertOk(base, ptr, size, fl, live, owner, t, bp);
    InsertApart(size, fl, t, bp);
    var ptr0, fl0, live0 := ptr[bp := ptr[fl[t]]][fl[t] := bp], Put(fl, t, bp), live - {bp};
    PutHas(fl, t, bp, bp);
    assert fl0[t] == fl[t] && fl0[t + 1] == bp;
    var fl1, owner1;
    ptr1, size1, fl1, owner1 := JoinOk(base, ptr0, size, fl0, live0, owner, t, t + 1);
    ptr', size', fl', owner' := JoinOk(base, ptr1, size1, fl1, live0, owner1, t, t);
    SameCoalesced(size', fl', t);
  }

  lemma {:induction false} FreeFacts(base: nat, ptr: Heap, size: Heap, fl: seq<nat>, live: set<nat>, owner: Heap,
                                     t: nat, bp: nat)
    requires HeapOk(base, ptr, size, fl, live, owner) && bp in live && Place(fl, t, bp)
    ensures bp in size && bp in owner && owner[bp] == bp
    ensures Linked(ptr, fl, t) && fl[t] in ptr && ptr[fl[t]] != bp && (ptr[fl[t]] == fl[t] || bp + size[bp] != fl[t])
  {
    assert Linked(ptr, fl, t) && IsBlock(fl, live, bp) && Owns(size, owner, bp);
  }

  /** What free writes into the headers. */
  lemma {:induction false} FreeHeaders(ptr: Heap, size: Heap, p: nat, bp: nat, ptr1: Heap, size1: Heap, ptr': Heap,
                                       size': Heap)
    requires p in ptr && p in size && bp in size && p < bp && ptr[p] != bp && (ptr[p] == p || bp + size[bp] != p)
    requires Joined(ptr[bp := ptr[p]][p := bp], size, bp, ptr1, size1) && Joined(ptr1, size1, p, ptr', size')
    ensures Relinked(ptr, size, p, bp, ptr', size')
    ensures bp + size[bp] == ptr[p] ==> ptr[p] in size && ptr[p] in ptr
  {
  }

  lemma {:induction false} RelinkedOnce(ptr: Heap, size: Heap, p: nat, bp: nat, ptr1: Heap, size1: Heap, ptr2: Heap,
                                        size2: Heap)
    requires Relinked(ptr, size, p, bp, ptr1, size1) && Relinked(ptr, size, p, bp, ptr2, size2)
    ensures ptr1 == ptr2 && size1 == size2
  {
  }

  lemma {:induction false} FreeKeeps(ptr: Heap, size: Heap, owner: Heap, p: nat, bp: nat,
                                     ptr': Heap, size': Heap, owner': Heap, live: set<nat>)
    requires Relinked(ptr, size, p, bp, ptr', size') && owner.Keys == owner'.Keys
    requires p !in live && bp !in live && forall h :: h in live ==> h in size
    ensures KeepsLive(size, owner, size', owner', live)
  {
  }

  /** The upper neighbour is joined to `bp`, if they touch, and then `bp` to the lower one. */
  ghost predicate Relinked(ptr: Heap, size: Heap, p: nat, bp: nat, ptr': Heap, size': Heap) {
    && p in ptr && p in size && bp in size && p != bp
    && var nx := ptr[p];
       var up := bp + size[bp] == nx;
       && (up ==> nx in size && nx in ptr)
       && var size1 := if up then size[bp := size[bp] + size[nx]] else size;
          var ptr1 := ptr[bp := if up then ptr[nx] else nx];
          if p + size1[p] == bp then size' == size1[p := size1[p] + size1[bp]] && ptr' == ptr1[p := ptr1[bp]]
          else size' == size1 && ptr' == ptr1[p := bp]
  }

  lemma {:induction false} LiveSized(base: nat, ptr: Heap, size: Heap, fl: seq<nat>, live: set<nat>, owner: Heap)
    requires HeapOk(base, ptr, size, fl, live, owner)
    ensures forall h :: h in live ==> h in size && h !in fl
    ensures forall i :: 0 <= i < |fl| ==> fl[i] in size
  {
    forall h | h in live ensures h in size { assert IsBlock(fl, live, h) && Owns(size, owner, h); }
    forall i | 0 <= i < |fl| ensures fl[i] in size {
      assert i > 0 ==> IsBlock(fl, live, fl[i]) && Owns(size, owner, fl[i]);
    }
  }

  lemma {:induction false} ListLink(base: nat, ptr: Heap, size: Heap, fl: seq<nat>, live: set<nat>, owner: Heap, k: nat)
    requires HeapOk(base, ptr, size, fl, live, owner) && k < |fl|
    ensures fl[k] in ptr && ptr[fl[k]] == fl[Next(|fl|, k)] && Ascending(fl)
  {
    assert Linked(ptr, fl, k);
  }

  lemma {:induction false} KeepsAll(size: Heap, owner: Heap, live: set<nat>)
    requires forall h :: h in live ==> h in size
    ensures KeepsLive(size, owner, size, owner, live)
  {
  }

  lemma {:induction false} KeepsTrans(size: Heap, owner: Heap, size1: Heap, owner1: Heap, size2: Heap, owner2: Heap,
                                      live: set<nat>)
    requires KeepsLive(size, owner, size1, owner1, live) && KeepsLive(size1, owner1, size2, owner2, live)
    ensures KeepsLive(size, owner, size2, owner2, live)
  {
  }

  lemma {:induction false} SameCoalesced(size: Heap, fl: seq<nat>, t: nat)
    requires Coalesced(size, fl, t, t)
    ensures Coalesced(size, fl, 0, 0)
  {
  }
}
