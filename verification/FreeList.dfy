/** The heap of the user-level allocator: memory units, each belonging to one block, and the
    circular, address-ordered list of the free blocks.  Addresses count units of one header. */
module FreeList {

  type Heap = map<nat, nat>

  function Next(n: nat, i: nat): nat
    requires i < n
  {
    if i + 1 == n then 0 else i + 1
  }

  ghost predicate Ascending(fl: seq<nat>) {
    forall i, j :: 0 <= i < j < |fl| ==> fl[i] < fl[j]
  }

  /** `fl` is the circular list that starts at `base`, in address order. */
  ghost predicate ListOk(base: nat, ptr: Heap, fl: seq<nat>) {
    && |fl| > 0 && fl[0] == base && Ascending(fl)
    && (forall i :: 0 <= i < |fl| ==> Linked(ptr, fl, i))
  }

  ghost predicate Linked(ptr: Heap, fl: seq<nat>, i: nat)
    requires i < |fl|
  {
    fl[i] in ptr && ptr[fl[i]] == fl[Next(|fl|, i)]
  }

  /** A block that is free or allocated. */
  ghost predicate IsBlock(fl: seq<nat>, live: set<nat>, h: nat) {
    h in live || (h in fl && h != fl[0])
  }

  /** Every unit of the block belongs to it. */
  ghost predicate Owns(size: Heap, owner: Heap, h: nat) {
    h in size && size[h] > 0 && forall u :: h <= u < h + size[h] ==> u in owner && owner[u] == h
  }

  ghost predicate UnitOk(size: Heap, fl: seq<nat>, live: set<nat>, owner: Heap, u: nat)
    requires fl != []
  {
    u in owner ==>
      && IsBlock(fl, live, owner[u]) && owner[u] in size && owner[u] <= u < owner[u] + size[owner[u]]
      && fl[0] < owner[u]
  }

  /** Each unit belongs to exactly one block, free or allocated. */
  ghost predicate HeapOk(base: nat, ptr: Heap, size: Heap, fl: seq<nat>, live: set<nat>, owner: Heap) {
    && ListOk(base, ptr, fl) && base in size && size[base] == 0
    && (forall h :: h in live ==> h !in fl)
    && (forall h :: IsBlock(fl, live, h) ==> Owns(size, owner, h))
    && (forall u: nat :: UnitOk(size, fl, live, owner, u))
  }

  /** Neighbours in the list do not touch. */
  ghost predicate Apart(size: Heap, fl: seq<nat>, i: nat)
    requires i + 1 < |fl|
  {
    fl[i] in size ==> fl[i] + size[fl[i]] != fl[i + 1]
  }

  /** Free blocks are coalesced, except perhaps those at positions lo..hi-1 with the next. */
  ghost predicate Coalesced(size: Heap, fl: seq<nat>, lo: int, hi: int) {
    forall i: nat :: i + 1 < |fl| && !(lo <= i < hi) ==> Apart(size, fl, i)
  }

  /** Blocks do not overlap. */
  lemma {:induction false} Disjoint(base: nat, ptr: Heap, size: Heap, fl: seq<nat>, live: set<nat>, owner: Heap,
                                    g: nat, h: nat)
    requires HeapOk(base, ptr, size, fl, live, owner) && IsBlock(fl, live, g) && IsBlock(fl, live, h) && g < h
    ensures Owns(size, owner, g) && Owns(size, owner, h) && g + size[g] <= h
  {
    assert Owns(size, owner, g) && Owns(size, owner, h);
    assert owner[h] == h;
  }

  /** Free blocks lie between their neighbours. */
  lemma {:induction false} InOrder(base: nat, ptr: Heap, size: Heap, fl: seq<nat>, live: set<nat>, owner: Heap,
                                   i: nat, h: nat)
    requires HeapOk(base, ptr, size, fl, live, owner) && i < |fl| && IsBlock(fl, live, h) && fl[i] < h
    ensures fl[i] in size && fl[i] + size[fl[i]] <= h
  {
    if i > 0 { Disjoint(base, ptr, size, fl, live, owner, fl[i], h); }
  }

  function Put(fl: seq<nat>, t: nat, h: nat): (r: seq<nat>)
    requires t < |fl|
    ensures |r| == |fl| + 1
    ensures forall i :: 0 <= i < |r| ==> r[i] == if i <= t then fl[i] else if i == t + 1 then h else fl[i - 1]
  {
    fl[..t + 1] + [h] + fl[t + 1..]
  }

  function Cut(fl: seq<nat>, i: nat): (r: seq<nat>)
    requires i < |fl|
    ensures |r| == |fl| - 1
    ensures forall j :: 0 <= j < |r| ==> r[j] == if j < i then fl[j] else fl[j + 1]
  {
    fl[..i] + fl[i + 1..]
  }

  /** Position t is where `h` belongs in the list. */
  ghost predicate Place(fl: seq<nat>, t: nat, h: nat) {
    t < |fl| && fl[t] < h && (t + 1 < |fl| ==> h < fl[t + 1])
  }

  lemma {:induction false} PutHas(fl: seq<nat>, t: nat, h: nat, x: nat)
    requires t < |fl|
    ensures x in Put(fl, t, h) <==> x in fl || x == h
  {
    var r := Put(fl, t, h);
    assert r[t + 1] == h;
    if x in fl {
      var k :| 0 <= k < |fl| && fl[k] == x;
      assert r[if k <= t then k else k + 1] == x;
    }
  }

  lemma {:induction false} CutHas(fl: seq<nat>, i: nat, x: nat)
    requires i < |fl| && Ascending(fl)
    ensures x in Cut(fl, i) <==> x in fl && x != fl[i]
  {
    var r := Cut(fl, i);
    if x in fl && x != fl[i] {
      var k :| 0 <= k < |fl| && fl[k] == x;
      assert r[if k < i then k else k - 1] == x;
    }
  }

  // ---- free ----

  lemma {:induction false} PutLinked(ptr: Heap, fl: seq<nat>, t: nat, h: nat, i: nat)
    requires Ascending(fl) && Place(fl, t, h) && Linked(ptr, fl, t) && i <= |fl|
             && Linked(ptr, fl, if i <= t then i else i - 1)
    ensures Linked(ptr[h := ptr[fl[t]]][fl[t] := h], Put(fl, t, h), i)
  {
    var ptr', fl' := ptr[h := ptr[fl[t]]][fl[t] := h], Put(fl, t, h);
    if i == t {
      assert fl'[t + 1] == h;
    } else if i == t + 1 {
      assert ptr'[h] == ptr[fl[t]];
    } else {
      var k := if i < t then i else i - 1;
      assert k != t && fl[k] != fl[t] && fl[k] != h;
      assert ptr'[fl'[i]] == fl[Next(|fl|, k)];
    }
  }

  lemma {:induction false} PutList(base: nat, ptr: Heap, fl: seq<nat>, t: nat, h: nat)
    requires ListOk(base, ptr, fl) && Place(fl, t, h) && Linked(ptr, fl, t)
    ensures ListOk(base, ptr[h := ptr[fl[t]]][fl[t] := h], Put(fl, t, h))
  {
    var ptr', fl' := ptr[h := ptr[fl[t]]][fl[t] := h], Put(fl, t, h);
    forall i | 0 <= i <= |fl| ensures Linked(ptr', fl', i) {
      PutLinked(ptr, fl, t, h, i);
    }
  }

  /** An allocated block linked in after position `t`. */
  lemma {:induction false} InsertOk(base: nat, ptr: Heap, size: Heap, fl: seq<nat>, live: set<nat>, owner: Heap,
                                    t: nat, h: nat)
    requires HeapOk(base, ptr, size, fl, live, owner) && h in live && Place(fl, t, h) && Linked(ptr, fl, t)
    ensures HeapOk(base, ptr[h := ptr[fl[t]]][fl[t] := h], size, Put(fl, t, h), live - {h}, owner)
  {
    var fl', live' := Put(fl, t, h), live - {h};
    PutList(base, ptr, fl, t, h);
    forall x: nat ensures x in fl' <==> x in fl || x == h { PutHas(fl, t, h, x); }
    forall x: nat ensures IsBlock(fl', live', x) <==> IsBlock(fl, live, x) { }
    forall u: nat ensures UnitOk(size, fl', live', owner, u) { assert UnitOk(size, fl, live, owner, u); }
  }

  lemma {:induction false} InsertApart(size: Heap, fl: seq<nat>, t: nat, h: nat)
    requires t < |fl| && Coalesced(size, fl, 0, 0)
    ensures Coalesced(size, Put(fl, t, h), t, t + 2)
  {
    var fl' := Put(fl, t, h);
    forall i: nat | i + 1 < |fl'| && !(t <= i < t + 2) ensures Apart(size, fl', i) {
      assert Apart(size, fl, if i < t then i else i - 1);
    }
  }

  lemma {:induction false} CutLinked(ptr: Heap, fl: seq<nat>, i: nat, j: nat)
    requires Ascending(fl) && i + 1 < |fl| && Linked(ptr, fl, i) && Linked(ptr, fl, i + 1)
    requires j + 1 < |fl| && Linked(ptr, fl, if j <= i then j else j + 1)
    ensures Linked(ptr[fl[i] := ptr[fl[i + 1]]], Cut(fl, i + 1), j)
  {
    var fl' := Cut(fl, i + 1);
    var k := Next(|fl'|, j);
    assert fl'[k] == if k <= i then fl[k] else fl[k + 1];
    assert j != i ==> fl'[j] != fl[i];
  }

  lemma {:induction false} CutList(base: nat, ptr: Heap, fl: seq<nat>, i: nat)
    requires ListOk(base, ptr, fl) && i + 1 < |fl| && Linked(ptr, fl, i) && Linked(ptr, fl, i + 1)
    ensures ListOk(base, ptr[fl[i] := ptr[fl[i + 1]]], Cut(fl, i + 1))
  {
    var ptr', fl' := ptr[fl[i] := ptr[fl[i + 1]]], Cut(fl, i + 1);
    forall j | 0 <= j < |fl'| ensures Linked(ptr', fl', j) {
      CutLinked(ptr, fl, i, j);
    }
    forall a, b | 0 <= a < b < |fl'| ensures fl'[a] < fl'[b] {
      assert fl'[a] == fl[if a <= i then a else a + 1] && fl'[b] == fl[if b <= i then b else b + 1];
    }
  }

  /** The units lo..hi-1 given to block `h`. */
  ghost function Give(owner: Heap, lo: nat, hi: nat, h: nat): Heap {
    map u | u in owner :: if lo <= u < hi then h else owner[u]
  }

  /** A free block joined with the next one, which it touches. */
  lemma {:induction false} MergeOk(base: nat, ptr: Heap, size: Heap, fl: seq<nat>, live: set<nat>, owner: Heap, i: nat)
    requires HeapOk(base, ptr, size, fl, live, owner) && 0 < i && i + 1 < |fl| && Linked(ptr, fl, i)
             && Linked(ptr, fl, i + 1)
    requires Owns(size, owner, fl[i]) && Owns(size, owner, fl[i + 1]) && fl[i] + size[fl[i]] == fl[i + 1]
    ensures var f, g := fl[i], fl[i + 1];
            HeapOk(base, ptr[f := ptr[g]], size[f := size[f] + size[g]], Cut(fl, i + 1), live,
                   Give(owner, g, g + size[g], f))
  {
    var f, g := fl[i], fl[i + 1];
    var size', fl', owner' := size[f := size[f] + size[g]], Cut(fl, i + 1), Give(owner, g, g + size[g], f);
    CutList(base, ptr, fl, i);
    forall x: nat ensures x in fl' <==> x in fl && x != g { CutHas(fl, i + 1, x); }
    forall x: nat | IsBlock(fl', live, x) ensures Owns(size', owner', x) {
      assert IsBlock(fl, live, x) && Owns(size, owner, x);
    }
    forall u: nat ensures UnitOk(size', fl', live, owner', u) { assert UnitOk(size, fl, live, owner, u); }
  }

  lemma {:induction false} MergeApart(size: Heap, fl: seq<nat>, lo: nat, i: nat)
    requires lo <= i && i + 1 < |fl| && fl[i] in size && fl[i + 1] in size && Coalesced(size, fl, lo, i + 1)
    requires fl[i] + size[fl[i]] == fl[i + 1] && Ascending(fl)
    ensures Coalesced(size[fl[i] := size[fl[i]] + size[fl[i + 1]]], Cut(fl, i + 1), lo, i)
  {
    var size', fl' := size[fl[i] := size[fl[i]] + size[fl[i + 1]]], Cut(fl, i + 1);
    forall j: nat | j + 1 < |fl'| && !(lo <= j < i) ensures Apart(size', fl', j) {
      assert Apart(size, fl, if j < i then j else j + 1);
    }
  }

  /** The headers of block `f` and the next block `g` joined, if they touch. */
  ghost predicate Joined(ptr: Heap, size: Heap, f: nat, ptr': Heap, size': Heap) {
    && f in ptr && f in size
    && var g := ptr[f];
       if f + size[f] == g then g in ptr && g in size && ptr' == ptr[f := ptr[g]]
         && size' == size[f := size[f] + size[g]]
       else ptr' == ptr && size' == size
  }

  /** The list and the headers with a touching pair at position `i` joined, if it touches. */
  lemma {:induction false} JoinOk(base: nat, ptr: Heap, size: Heap, fl: seq<nat>, live: set<nat>, owner: Heap,
                                  lo: nat, i: nat)
    returns (ptr': Heap, size': Heap, fl': seq<nat>, owner': Heap)
    requires HeapOk(base, ptr, size, fl, live, owner) && lo <= i < |fl| && Coalesced(size, fl, lo, i + 1)
    requires fl[i] in size && fl[i] in ptr
    ensures HeapOk(base, ptr', size', fl', live, owner') && Coalesced(size', fl', lo, i)
    ensures Joined(ptr, size, fl[i], ptr', size')
    ensures owner'.Keys == owner.Keys && (forall j :: 0 <= j <= i ==> j < |fl'| && fl'[j] == fl[j])
    ensures forall u :: u in owner && owner[u] in fl && owner[u] in size ==>
              owner'[u] in fl' && owner'[u] in size' && size'[owner'[u]] >= size[owner[u]]
  {
    hide HeapOk, Coalesced, Owns, Linked;
    Touching(base, ptr, size, fl, live, owner, i);
    if i + 1 < |fl| && fl[i] + size[fl[i]] == fl[i + 1] {
      MergeOk(base, ptr, size, fl, live, owner, i);
      MergeApart(size, fl, lo, i);
      MergedUnits(base, ptr, size, fl, live, owner, i);
      var f, g := fl[i], fl[i + 1];
      ptr', size', fl', owner' := ptr[f := ptr[g]], size[f := size[f] + size[g]], Cut(fl, i + 1),
        Give(owner, g, g + size[g], f);
    } else {
      ptr', size', fl', owner' := ptr, size, fl, owner;
      ApartAt(size, fl, lo, i);
    }
  }

  lemma {:induction false} Touching(base: nat, ptr: Heap, size: Heap, fl: seq<nat>, live: set<nat>, owner: Heap, i: nat)
    requires HeapOk(base, ptr, size, fl, live, owner) && i < |fl| && fl[i] in size
    ensures Ascending(fl) && Linked(ptr, fl, i) && fl[i] in ptr
    ensures ptr[fl[i]] == fl[Next(|fl|, i)] && fl[0] == base
            && (fl[i] + size[fl[i]] == base ==> fl[i] == base && size[base] == 0)
    ensures i + 1 < |fl| && fl[i] + size[fl[i]] == fl[i + 1] ==>
              && 0 < i && Linked(ptr, fl, i + 1) && fl[i + 1] in size && fl[i + 1] in ptr
              && Owns(size, owner, fl[i]) && Owns(size, owner, fl[i + 1])
  {
    assert Linked(ptr, fl, i);
    assert i > 0 ==> IsBlock(fl, live, fl[i]) && Owns(size, owner, fl[i]);
    if i + 1 < |fl| { assert IsBlock(fl, live, fl[i + 1]) && Owns(size, owner, fl[i + 1]) && Linked(ptr, fl, i + 1); }
  }

  lemma {:induction false} ApartAt(size: Heap, fl: seq<nat>, lo: nat, i: nat)
    requires lo <= i < |fl| && fl[i] in size && Coalesced(size, fl, lo, i + 1)
             && (i + 1 < |fl| ==> fl[i] + size[fl[i]] != fl[i + 1])
    ensures Coalesced(size, fl, lo, i)
  {
  }

  /** Units of free blocks stay in free blocks, which are no smaller. */
  lemma {:induction false} MergedUnits(base: nat, ptr: Heap, size: Heap, fl: seq<nat>, live: set<nat>, owner: Heap,
                                       i: nat)
    requires HeapOk(base, ptr, size, fl, live, owner) && i + 1 < |fl|
    requires Owns(size, owner, fl[i]) && Owns(size, owner, fl[i + 1]) && fl[i] + size[fl[i]] == fl[i + 1]
    ensures var f, g := fl[i], fl[i + 1];
            var fl', size', owner' := Cut(fl, i + 1), size[f := size[f] + size[g]], Give(owner, g, g + size[g], f);
            forall u :: u in owner && owner[u] in fl && owner[u] in size ==>
              owner'[u] in fl' && owner'[u] in size' && size'[owner'[u]] >= size[owner[u]]
  {
    var f, g := fl[i], fl[i + 1];
    var fl', owner' := Cut(fl, i + 1), Give(owner, g, g + size[g], f);
    forall u | u in owner && owner[u] in fl
      ensures owner'[u] in fl' && owner'[u] == if owner[u] == g then f else owner[u]
    {
      assert UnitOk(size, fl, live, owner, u);
      CutHas(fl, i + 1, owner'[u]);
    }
  }

  // ---- malloc ----

  /** A free block unlinked and allocated as a whole. */
  lemma {:induction false} UnlinkOk(base: nat, ptr: Heap, size: Heap, fl: seq<nat>, live: set<nat>, owner: Heap, i: nat)
    requires HeapOk(base, ptr, size, fl, live, owner) && i + 1 < |fl| && Linked(ptr, fl, i) && Linked(ptr, fl, i + 1)
    ensures HeapOk(base, ptr[fl[i] := ptr[fl[i + 1]]], size, Cut(fl, i + 1), live + {fl[i + 1]}, owner)
  {
    var g, fl', live' := fl[i + 1], Cut(fl, i + 1), live + {fl[i + 1]};
    CutList(base, ptr, fl, i);
    forall x: nat ensures x in fl' <==> x in fl && x != g { CutHas(fl, i + 1, x); }
    forall x: nat ensures IsBlock(fl', live', x) <==> IsBlock(fl, live, x) { }
    forall u: nat ensures UnitOk(size, fl', live', owner, u) { assert UnitOk(size, fl, live, owner, u); }
  }

  lemma {:induction false} UnlinkApart(base: nat, ptr: Heap, size: Heap, fl: seq<nat>, live: set<nat>, owner: Heap,
                                       i: nat)
    requires HeapOk(base, ptr, size, fl, live, owner) && i + 1 < |fl| && Coalesced(size, fl, 0, 0)
    ensures Coalesced(size, Cut(fl, i + 1), 0, 0)
  {
    var fl' := Cut(fl, i + 1);
    InOrder(base, ptr, size, fl, live, owner, i, fl[i + 1]);
    forall j: nat | j + 1 < |fl'| ensures Apart(size, fl', j) {
      if j != i { assert Apart(size, fl, if j < i then j else j + 1); }
    }
  }

  /** The tail of a free block allocated. */
  lemma {:induction false} SplitOk(base: nat, ptr: Heap, size: Heap, fl: seq<nat>, live: set<nat>, owner: Heap,
                                   i: nat, n: nat)
    requires HeapOk(base, ptr, size, fl, live, owner) && 0 < i < |fl| && Owns(size, owner, fl[i]) && 0 < n < size[fl[i]]
    ensures var f := fl[i];
            var q := f + size[f] - n;
            && HeapOk(base, ptr, size[f := size[f] - n][q := n], fl, live + {q}, Give(owner, q, q + n, q))
            && q !in live && q !in fl
  {
    var f := fl[i];
    var q := f + size[f] - n;
    var size', live', owner' := size[f := size[f] - n][q := n], live + {q}, Give(owner, q, q + n, q);
    assert owner[q] == f;
    assert IsBlock(fl, live, q) ==> Owns(size, owner, q);
    forall x: nat | IsBlock(fl, live', x) ensures Owns(size', owner', x) {
      if x != q { assert Owns(size, owner, x); }
    }
    forall u: nat ensures UnitOk(size', fl, live', owner', u) { assert UnitOk(size, fl, live, owner, u); }
  }

  lemma {:induction false} SplitApart(base: nat, ptr: Heap, size: Heap, fl: seq<nat>, live: set<nat>, owner: Heap,
                                      i: nat, n: nat)
    requires HeapOk(base, ptr, size, fl, live, owner) && 0 < i < |fl| && Owns(size, owner, fl[i]) && 0 < n < size[fl[i]]
    requires Coalesced(size, fl, 0, 0)
    ensures var f := fl[i]; Coalesced(size[f := size[f] - n][f + size[f] - n := n], fl, 0, 0)
  {
    var f := fl[i];
    var q := f + size[f] - n;
    var size' := size[f := size[f] - n][q := n];
    assert owner[q] == f;
    assert IsBlock(fl, live, q) ==> Owns(size, owner, q);
    forall j: nat | j + 1 < |fl| ensures Apart(size', fl, j) {
      assert Apart(size, fl, j);
      if j == i { InOrder(base, ptr, size, fl, live, owner, i, fl[i + 1]); }
    }
  }

  /** `n` new units from `h` on, for block `h`. */
  ghost function Added(owner: Heap, h: nat, n: nat): (r: Heap)
    ensures forall u: nat :: u in r <==> u in owner || h <= u < h + n
    ensures forall u: nat :: u in r ==> r[u] == if h <= u < h + n then h else owner[u]
  {
    if n == 0 then owner else Added(owner, h, n - 1)[h + n - 1 := h]
  }

  /** New units from the kernel, as one allocated block. */
  lemma {:induction false} GrowOk(base: nat, ptr: Heap, size: Heap, fl: seq<nat>, live: set<nat>, owner: Heap, h: nat,
                                  n: nat)
    requires HeapOk(base, ptr, size, fl, live, owner) && base < h && 0 < n && forall u :: u in owner ==> u < h
    ensures h !in fl && h !in live
    ensures HeapOk(base, ptr, size[h := n], fl, live + {h}, Added(owner, h, n))
    ensures Coalesced(size, fl, 0, 0) ==> Coalesced(size[h := n], fl, 0, 0)
  {
    var size', live', owner' := size[h := n], live + {h}, Added(owner, h, n);
    assert IsBlock(fl, live, h) ==> Owns(size, owner, h) && h in owner;
    assert h !in fl;
    forall x: nat | IsBlock(fl, live', x) ensures Owns(size', owner', x) {
      if x != h { assert Owns(size, owner, x); }
    }
    forall u: nat ensures UnitOk(size', fl, live', owner', u) { assert UnitOk(size, fl, live, owner, u); }
    if Coalesced(size, fl, 0, 0) {
      forall j: nat | j + 1 < |fl| ensures Apart(size', fl, j) { assert Apart(size, fl, j); }
    }
  }
}
