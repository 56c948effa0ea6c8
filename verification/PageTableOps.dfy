/** walk, mappages, uvmunmap, freewalk and uvmfree on tables in memory. */
module PageTableOps {
  import opened PageTable
  import opened TableTree
  import opened Types

  // ---- Free pages ----

  ghost predicate FreeOk(mem: Memory, node: map<Node, nat>, free: seq<nat>) {
    && (forall i, j :: 0 <= i < j < |free| ==> free[i] != free[j])
    && (forall i :: 0 <= i < |free| ==> free[i] < |mem| && Unused(node, free[i]))
  }

  /** A page is free or a table. */
  ghost predicate Kept(node: map<Node, nat>, free: seq<nat>, p: nat) {
    p in free || !Unused(node, p)
  }

  /** No page is lost or gained. */
  ghost predicate Conserved(node: map<Node, nat>, free: seq<nat>, node': map<Node, nat>, free': seq<nat>) {
    forall p: nat :: Kept(node', free', p) <==> Kept(node, free, p)
  }

  /** The tables of level 0 that are still there have not changed. */
  ghost predicate KeepsLeaves(mem: Memory, node: map<Node, nat>, mem': Memory, node': map<Node, nat>) {
    forall m :: m in node' ==>
      && m in node && node'[m] == node[m]
      && (m.level == 0 && node[m] < |mem| && node[m] < |mem'| ==> mem'[node[m]] == mem[node[m]])
  }

  lemma {:induction false} NoneChanged(mem: Memory, node: map<Node, nat>, free: seq<nat>)
    ensures Conserved(node, free, node, free) && KeepsLeaves(mem, node, mem, node)
  {
  }

  lemma {:induction false} KeptTwice(mem: Memory, node: map<Node, nat>, mem1: Memory, node1: map<Node, nat>,
                                     mem2: Memory, node2: map<Node, nat>)
    requires KeepsLeaves(mem, node, mem1, node1) && KeepsLeaves(mem1, node1, mem2, node2)
    requires |mem| == |mem1| == |mem2|
    ensures KeepsLeaves(mem, node, mem2, node2)
  {
  }

  lemma {:induction false} ChangedTwice(mem: Memory, node: map<Node, nat>, free: seq<nat>, mem1: Memory,
                                        node1: map<Node, nat>,
                                        free1: seq<nat>, mem2: Memory, node2: map<Node, nat>, free2: seq<nat>)
    requires Conserved(node, free, node1, free1) && KeepsLeaves(mem, node, mem1, node1)
    requires Conserved(node1, free1, node2, free2) && KeepsLeaves(mem1, node1, mem2, node2)
    requires |mem| == |mem1| == |mem2|
    ensures Conserved(node, free, node2, free2) && KeepsLeaves(mem, node, mem2, node2)
  {
  }

  lemma {:induction false} LowestCleared(node: map<Node, nat>, n: Node, i: nat)
    requires n.level == 0
    ensures Cleared(node, n, i) == node && Cleared(node, n, i + 1) == node
  {
  }

  ghost predicate NoLeaves(mem: Memory, node: map<Node, nat>, n: Node) {
    forall m :: m in node && m.level == 0 && Below(m, n) && node[m] < |mem| ==> mem[node[m]] == Blank()
  }

  lemma {:induction false} NoLeavesKept(mem: Memory, node: map<Node, nat>, n: Node, mem': Memory,
                                        node': map<Node, nat>)
    requires NoLeaves(mem, node, n) && KeepsLeaves(mem, node, mem', node') && |mem'| == |mem|
    ensures NoLeaves(mem', node', n)
  {
  }

  lemma {:induction false} NoLeavesChild(mem: Memory, node: map<Node, nat>, n: Node, i: nat)
    requires NoLeaves(mem, node, n) && 0 < n.level && i < 512
    ensures NoLeaves(mem, node, Child(n, i))
  {
    forall m | m in node && m.level == 0 && Below(m, Child(n, i)) ensures Below(m, n) {
      BelowChild(m, n, i);
    }
  }

  /** Clearing the pointer to a freed table. */
  lemma {:induction false} ClearSlotOk(mem: Memory, node: map<Node, nat>, n: Node, i: nat)
    requires 0 < n.level && i < 512 && n in node && TreeOk(mem, node, Child(n, i)) && Child(n, i) !in node
    requires NodeOk(mem, node, n, Child(n, i))
    ensures var mem' := WithEntry(mem, node[n], i, Zero);
            TreeOk(mem', node, NOWHERE) && KeepsLeaves(mem, node, mem', node)
  {
    var mem', c := WithEntry(mem, node[n], i, Zero), Child(n, i);
    forall m | m in node ensures NodeOk(mem', node, m, NOWHERE) {
      assert NodeOk(mem, node, m, c);
      assert m != n ==> !SameTable(node, m, n);
      forall j: nat | j < 512 ensures SlotOk(mem', node, m, j, NOWHERE) {
        assert SlotOk(mem, node, m, j, c);
        if 0 < m.level && Child(m, j) == c { assert m == Parent(c) == n && j == i; }
      }
    }
    forall m | m in node && m.level == 0 ensures node[m] != node[n] { assert !SameTable(node, m, n); }
  }

  /** Freeing a table that has none below it. */
  lemma {:induction false} FreeTableOk(mem: Memory, node: map<Node, nat>, free: seq<nat>, n: Node, junk: seq<Entry>)
    requires TreeOk(mem, node, NOWHERE) && FreeOk(mem, node, free) && n in node && NodeOk(mem, node, n, NOWHERE)
             && |junk| == 512
    requires forall m :: m in node && m.level < n.level ==> !Below(m, n)
    ensures var mem', node', free' := mem[node[n] := junk], node - {n}, [node[n]] + free;
            && TreeOk(mem', node', n) && FreeOk(mem', node', free')
            && Conserved(node, free, node', free') && KeepsLeaves(mem, node, mem', node')
  {
    var p, mem', node' := node[n], mem[node[n] := junk], node - {n};
    var free' := [p] + free;
    forall m | m in node' ensures node[m] != p { assert !SameTable(node, m, n); }
    forall m | m in node' ensures NodeOk(mem', node', m, n) {
      assert NodeOk(mem, node, m, NOWHERE);
      assert Parent(m) == n ==> Lift(m, n.level) == Lift(n, n.level) == n;
      forall j: nat | j < 512 ensures SlotOk(mem', node', m, j, n) {
        assert SlotOk(mem, node, m, j, NOWHERE);
      }
    }
    forall a, b | SameTable(node', a, b) ensures a == b { assert SameTable(node, a, b); }
    forall q: nat ensures Kept(node', free', q) <==> Kept(node, free, q) {
      assert q in free' <==> q == p || q in free;
      assert node[n] == p;
      forall m | m in node && m != n ensures m in node' && node'[m] == node[m] { }
    }
  }

  /** Taking a free page for a table. */
  lemma {:induction false} TakeOk(mem: Memory, node: map<Node, nat>, free: seq<nat>, k: Node, mem': Memory)
    requires FreeOk(mem, node, free) && free != [] && k !in node && |mem'| == |mem|
    ensures Unused(node, free[0]) && free[0] < |mem|
    ensures FreeOk(mem', node[k := free[0]], free[1..]) && Conserved(node, free, node[k := free[0]], free[1..])
  {
    var node', free' := node[k := free[0]], free[1..];
    forall i | 0 <= i < |free'| ensures free'[i] == free[i + 1] && Unused(node', free'[i]) { }
    forall q: nat ensures Kept(node', free', q) <==> Kept(node, free, q) {
      assert free == [free[0]] + free';
      assert q in free <==> q == free[0] || q in free';
      assert node'[k] == free[0];
      forall m | m in node ensures m in node' && node'[m] == node[m] { }
    }
  }

  ghost predicate Extends(node: map<Node, nat>, node': map<Node, nat>) {
    forall n :: n in node ==> n in node' && node'[n] == node[n]
  }

  /** The flat map with `done` pages from `vpn` on mapped to pages from `ppn` on. */
  ghost predicate Mapped(mem: Memory, node: map<Node, nat>, mem': Memory, node': map<Node, nat>,
                         root: nat, vpn: nat, done: nat, ppn: nat, perm: Perm)
    requires TreeOk(mem, node, NOWHERE) && TreeOk(mem', node', NOWHERE)
  {
    forall r: nat, v: nat :: At(mem', node', r, v) ==
      if r == root && vpn <= v < vpn + done then Entry(ppn + v - vpn, perm) else At(mem, node, r, v)
  }

  /** The flat map without pages vpn..hi-1 of the process. */
  ghost predicate Unmapped(mem: Memory, mem': Memory, node: map<Node, nat>, root: nat, vpn: nat, hi: nat)
    requires TreeOk(mem, node, NOWHERE) && TreeOk(mem', node, NOWHERE)
  {
    forall r: nat, v: nat :: At(mem', node, r, v) ==
      if r == root && vpn <= v < hi then Zero else At(mem, node, r, v)
  }

  /** A process is known by the page of its root table. */
  ghost predicate RootsOk(node: map<Node, nat>) {
    forall n :: n in node && n.level == 2 ==> node[n] == n.root
  }

  class Tables {
    var mem: Memory
    var free: seq<nat>
    ghost var node: map<Node, nat>

    ghost predicate Valid()
      reads this
    {
      TreeOk(mem, node, NOWHERE) && FreeOk(mem, node, free) && RootsOk(node)
    }

    /** All pages free. */
    constructor (npages: nat)
      ensures Valid() && node == map[] && |free| == |mem| == npages
    {
      mem := seq(npages, _ => Blank());
      free := seq(npages, i => i);
      node := map[];
    }

    /** uvmcreate; -1 for null. */
    method UvmCreate() returns (root: int)
      requires Valid()
      modifies this
      ensures Valid() && Conserved(old(node), old(free), node, free) && SameFlat(old(mem), old(node), mem, node)
      ensures root == -1 <==> old(free) == []
      ensures root != -1 ==> root >= 0 && node == old(node)[Node(root, 2, 0) := root] && Node(root, 2, 0) !in old(node)
      ensures root == -1 ==> node == old(node)
    {
      if free == [] { return -1; }
      root := free[0];
      assert Node(root, 2, 0) in node ==> NodeOk(mem, node, Node(root, 2, 0), NOWHERE);
      TakeOk(mem, node, free, Node(root, 2, 0), mem[root := Blank()]);
      WithRootOk(mem, node, root, root);
      free := free[1..];
      mem := mem[root := Blank()];
      node := node[Node(root, 2, 0) := root];
    }

    /** One level of walk, at table `p`: the table below, or -1. */
    method Down(ghost n: Node, p: nat, i: nat, alloc: bool) returns (c: int)
      requires Valid() && n in node && node[n] == p && 0 < n.level && i < 512
      modifies this
      ensures Valid() && Conserved(old(node), old(free), node, free) && SameFlat(old(mem), old(node), mem, node)
      ensures Extends(old(node), node) && |mem| == old(|mem|)
      ensures c != -1 ==> Child(n, i) in node && c == node[Child(n, i)] && 0 <= c < |mem|
      ensures c == -1 <==> Child(n, i) !in old(node) && (!alloc || old(free) == [])
      ensures if Child(n, i) !in old(node) && c != -1 then node.Keys == old(node).Keys + {Child(n, i)}
              && |free| == |old(free)| - 1
              else unchanged(this)
    {
      assert NodeOk(mem, node, n, NOWHERE) && SlotOk(mem, node, n, i, NOWHERE);
      if mem[p][i].Entry? {
        assert NodeOk(mem, node, Child(n, i), NOWHERE);
        return mem[p][i].ppn;
      }
      if !alloc || free == [] { return -1; }
      c := free[0];
      TakeOk(mem, node, free, Child(n, i), WithTable(mem, p, i, c));
      WithTableOk(mem, node, n, i, c);
      free := free[1..];
      mem := WithTable(mem, p, i, c);
      node := node[Child(n, i) := c];
    }

    /** walk: the level-0 table for `vpn`, or -1. */
    method Walk(root: nat, vpn: nat, alloc: bool) returns (t: int)
      requires Valid() && Node(root, 2, 0) in node && vpn < VPNS
      modifies this
      ensures Valid() && Conserved(old(node), old(free), node, free) && SameFlat(old(mem), old(node), mem, node)
      ensures Extends(old(node), node) && |mem| == old(|mem|)
      ensures t != -1 ==> OnPath(root, 0, vpn) in node && t == node[OnPath(root, 0, vpn)] && 0 <= t < |mem|
      ensures t == -1 ==> OnPath(root, 0, vpn) !in node
      ensures !alloc ==> unchanged(this) && (t != -1 <==> OnPath(root, 0, vpn) in node)
      ensures alloc ==> Supplied(old(node).Keys, |old(free)|, Path(root, vpn), t != -1, node.Keys, |free|)
    {
      PathStep(root, vpn);
      assert NodeOk(mem, node, Node(root, 2, 0), NOWHERE);
      hide NodeOk, TreeOk, FreeOk, Path, PathTo, Supplied;
      PathRoot(node.Keys, |free|, root, vpn);
      t := root;
      var level := 2;
      while level > 0
        invariant 0 <= level <= 2 && Valid() && |mem| == old(|mem|)
        invariant Conserved(old(node), old(free), node, free) && SameFlat(old(mem), old(node), mem, node)
                  && Extends(old(node), node)
        invariant OnPath(root, level, vpn) in node && t == node[OnPath(root, level, vpn)] && 0 <= t < |mem|
        invariant if alloc then Supplied(old(node).Keys, |old(free)|, PathTo(root, vpn, level), true, node.Keys, |free|)
                  else unchanged(this)
      {
        ghost var have, left := node.Keys, |free|;
        t := Down(OnPath(root, level, vpn), t, Px(level, vpn), alloc);
        if alloc { SuppliedDown(old(node).Keys, |old(free)|, root, vpn, level, have, left, node.Keys, |free|); }
        if t == -1 {
          MissingBelow(mem, node, root, vpn, level - 1);
          return;
        }
        level := level - 1;
      }
    }

    /** An entry written for a page whose level-0 table is there. */
    method SetEntry(ghost root: nat, vpn: nat, t: nat, e: Entry)
      requires Valid() && OnPath(root, 0, vpn) in node && t == node[OnPath(root, 0, vpn)] && !IsDir(e)
      modifies this`mem
      ensures Valid() && |mem| == old(|mem|)
      ensures forall r: nat, v: nat :: At(mem, node, r, v) == if r == root && v == vpn then e
              else At(old(mem), node, r, v)
    {
      assert NodeOk(mem, node, OnPath(root, 0, vpn), NOWHERE);
      WithEntryOk(mem, node, root, vpn, e);
      mem := WithEntry(mem, t, Px(0, vpn), e);
    }

    /** mappages for `npages` unmapped pages; `done` of them are mapped in the end: all of them if
        and only if there are free pages for the tables that are missing on the way, and else as
        many as there are free pages for. */
    method MapPages(root: nat, vpn: nat, npages: nat, ppn: nat, perm: Perm) returns (ok: bool, ghost done: nat)
      requires Valid() && Node(root, 2, 0) in node && vpn + npages <= VPNS && 0 < npages && (perm.r || perm.w || perm.x)
      requires forall v: nat :: vpn <= v < vpn + npages ==> At(mem, node, root, v) == Zero
      modifies this
      ensures Valid() && Conserved(old(node), old(free), node, free) && Extends(old(node), node)
      ensures Mapped(old(mem), old(node), mem, node, root, vpn, done, ppn, perm)
      ensures done <= npages && (ok <==> done == npages)
      ensures Supplied(old(node).Keys, |old(free)|, PathNodes(root, vpn, vpn + npages), ok, node.Keys, |free|)
      ensures !ok ==> |PathNodes(root, vpn, vpn + done) - old(node).Keys| <= |old(free)|
                      < |PathNodes(root, vpn, vpn + done + 1) - old(node).Keys|
    {
      hide TreeOk, FreeOk, At, Path, PathNodes, Supplied;
      SuppliedNone(node.Keys, |free|, root, vpn);
      done := 0;
      var a, pa := vpn, ppn;
      while true
        invariant Valid() && Conserved(old(node), old(free), node, free) && Extends(old(node), node)
        invariant done < npages && a == vpn + done && pa == ppn + done
        invariant Mapped(old(mem), old(node), mem, node, root, vpn, done, ppn, perm)
        invariant Supplied(old(node).Keys, |old(free)|, PathNodes(root, vpn, a), true, node.Keys, |free|)
        decreases npages - done
      {
        assert At(mem, node, root, a) == Zero;
        ghost var have, left := node.Keys, |free|;
        var t := Walk(root, a, true);
        SuppliedMore(old(node).Keys, |old(free)|, root, vpn, a, have, left, t != -1, node.Keys, |free|, vpn + npages);
        if t == -1 {
          SuppliedMore(old(node).Keys, |old(free)|, root, vpn, a, have, left, false, node.Keys, |free|, a + 1);
          SuppliedIff(old(node).Keys, |old(free)|, PathNodes(root, vpn, a), true, have, left);
          SuppliedIff(old(node).Keys, |old(free)|, PathNodes(root, vpn, a + 1), false, node.Keys, |free|);
          return false, done;
        }
        SetEntry(root, a, t, Entry(pa, perm));
        done := done + 1;
        if a == vpn + npages - 1 { return true, done; }
        a, pa := a + 1, pa + 1;
      }
    }

    /** uvmunmap of mapped pages, without do_free. */
    method UvmUnmap(root: nat, vpn: nat, npages: nat)
      requires Valid() && Node(root, 2, 0) in node && vpn + npages <= VPNS
      requires forall v: nat :: vpn <= v < vpn + npages ==> At(mem, node, root, v) != Zero
      modifies this
      ensures Valid() && node == old(node) && free == old(free)
      ensures Unmapped(old(mem), mem, node, root, vpn, vpn + npages)
    {
      hide TreeOk, FreeOk;
      var a := vpn;
      while a < vpn + npages
        invariant vpn <= a <= vpn + npages && Valid() && node == old(node) && free == old(free)
        invariant Unmapped(old(mem), mem, node, root, vpn, a)
      {
        assert At(mem, node, root, a) != Zero;
        var t := Walk(root, a, false);
        SetEntry(root, a, t, Zero);
        a := a + 1;
      }
    }

    /** freewalk on a table with no leaf below it: every table of the subtree is freed, once,
        and nothing else.  The pointer to the table is left to the caller. */
    method FreeWalk(ghost n: Node, p: nat)
      requires Valid() && n in node && node[n] == p && NoLeaves(mem, node, n)
      modifies this
      ensures TreeOk(mem, node, n) && FreeOk(mem, node, free) && RootsOk(node) && |mem| == old(|mem|)
      ensures node == Without(old(node), n) && Conserved(old(node), old(free), node, free)
      ensures KeepsLeaves(old(mem), old(node), mem, node)
      decreases n.level
    {
      hide Conserved, KeepsLeaves, NoLeaves;
      ClearedAll(node, n);
      assert NodeOk(mem, node, n, NOWHERE);
      NoneChanged(mem, node, free);
      for i := 0 to 512
        invariant Valid() && n in node && node[n] == p && p < |mem| == old(|mem|) && n.level <= 2
        invariant node == Cleared(old(node), n, i) && Conserved(old(node), old(free), node, free)
        invariant KeepsLeaves(old(mem), old(node), mem, node) && NoLeaves(mem, node, n)
      {
        ghost var mem1, node1, free1 := mem, node, free;
        FreeSlot(n, p, i);
        ChangedTwice(old(mem), old(node), old(free), mem1, node1, free1, mem, node, free);
        if n.level > 0 { ClearedNext(old(node), n, i); } else { LowestCleared(old(node), n, i); }
      }
      ghost var mem1, node1, free1 := mem, node, free;
      assert NodeOk(mem, node, n, NOWHERE);
      ClearedAll(old(node), n);
      FreeTableOk(mem, node, free, n, Junk());
      mem := mem[p := Junk()];
      free := [p] + free;
      node := node - {n};
      ChangedTwice(old(mem), old(node), old(free), mem1, node1, free1, mem, node, free);
    }

    /** uvmfree of a process whose mapped pages are 0..npages-1, without the pages
        themselves: all its tables become free and other processes keep their translations. */
    method UvmFree(root: nat, npages: nat)
      requires Valid() && Node(root, 2, 0) in node && npages <= VPNS
      requires forall v: nat :: At(mem, node, root, v) != Zero <==> v < npages
      modifies this
      ensures Valid() && Conserved(old(node), old(free), node, free)
      ensures node == map m | m in old(node) && m.root != root :: old(node)[m]
      ensures forall r: nat, v: nat :: At(mem, node, r, v) == if r == root then Zero else At(old(mem), old(node), r, v)
    {
      if npages > 0 {
        UvmUnmap(root, 0, npages);
      }
      ghost var mem1, n := mem, Node(root, 2, 0);
      assert forall v: nat :: At(mem, node, root, v) == Zero;
      NoLeavesFlat(mem, node, root);
      assert NodeOk(mem, node, n, NOWHERE);
      TreeClosed(mem, node);
      WholeTree(node, root);
      FreeWalk(n, root);
      TreeGone(mem1, old(node), root, mem, node);
    }

    /** One round of freewalk. */
    method FreeSlot(ghost n: Node, p: nat, i: nat)
      requires Valid() && n in node && node[n] == p && NoLeaves(mem, node, n) && i < 512 && p < |mem|
      modifies this
      ensures Valid() && n in node && node[n] == p && |mem| == old(|mem|)
      ensures node == (if n.level > 0 then Without(old(node), Child(n, i)) else old(node))
      ensures Conserved(old(node), old(free), node, free)
      ensures KeepsLeaves(old(mem), old(node), mem, node) && NoLeaves(mem, node, n)
      decreases n.level, 0
    {
      assert NodeOk(mem, node, n, NOWHERE) && SlotOk(mem, node, n, i, NOWHERE);
      var e := mem[p][i];
      if IsDir(e) {
        ghost var c := Child(n, i);
        NoLeavesChild(mem, node, n, i);
        FreeWalk(c, e.ppn);
        assert NodeOk(mem, node, n, c);
        ClearSlotOk(mem, node, n, i);
        mem := WithEntry(mem, p, i, Zero);
      } else if e.Entry? {
        assert false;  // panic("freewalk: leaf")
      } else if n.level > 0 {
        TreeClosed(mem, node);
        NothingBelow(node, Child(n, i));
      }
    }
  }

  lemma {:induction false} TreeClosed(mem: Memory, node: map<Node, nat>)
    requires TreeOk(mem, node, NOWHERE)
    ensures Closed(node)
  {
    forall n | n in node
      ensures n.level <= 2 && (n.level == 2 ==> n.prefix == 0) && (n.level < 2 ==> Parent(n) in node)
    {
      assert NodeOk(mem, node, n, NOWHERE);
    }
  }

  lemma {:induction false} NoLeavesFlat(mem: Memory, node: map<Node, nat>, root: nat)
    requires TreeOk(mem, node, NOWHERE) && forall v: nat :: At(mem, node, root, v) == Zero
    ensures NoLeaves(mem, node, Node(root, 2, 0))
  {
    TreeClosed(mem, node);
    forall m | m in node && m.level == 0 && Below(m, Node(root, 2, 0)) && node[m] < |mem|
      ensures mem[node[m]] == Blank() {
      LiftIn(node, m);
      assert NodeOk(mem, node, m, NOWHERE);
      forall i: nat | i < 512 ensures mem[node[m]][i] == Zero {
        var v := m.prefix * 512 + i;
        assert OnPath(root, 0, v) == m && Px(0, v) == i;
        assert At(mem, node, root, v) == Zero;
      }
    }
  }

  /** With the root gone, no pointer is left over. */
  lemma {:induction false} TreeGone(mem: Memory, node: map<Node, nat>, root: nat, mem': Memory, node': map<Node, nat>)
    requires TreeOk(mem, node, NOWHERE) && TreeOk(mem', node', Node(root, 2, 0)) && |mem'| == |mem|
    requires node' == map m | m in node && m.root != root :: node[m]
    requires KeepsLeaves(mem, node, mem', node')
    ensures TreeOk(mem', node', NOWHERE)
    ensures forall r: nat, v: nat :: At(mem', node', r, v) == if r == root then Zero else At(mem, node, r, v)
  {
    forall m | m in node' ensures NodeOk(mem', node', m, NOWHERE) {
      assert NodeOk(mem', node', m, Node(root, 2, 0));
      forall j: nat | j < 512 ensures SlotOk(mem', node', m, j, NOWHERE) {
        assert SlotOk(mem', node', m, j, Node(root, 2, 0));
      }
    }
    forall r: nat, v: nat ensures At(mem', node', r, v) == if r == root then Zero else At(mem, node, r, v) {
      var m := OnPath(r, 0, v);
      assert m in node ==> NodeOk(mem, node, m, NOWHERE);
    }
  }

  function Junk(): (r: seq<Entry>)
    ensures |r| == 512
  {
    seq(NPTE, _ => JUNK)
  }

  lemma {:induction false} MissingBelow(mem: Memory, node: map<Node, nat>, root: nat, vpn: nat, level: nat)
    requires TreeOk(mem, node, NOWHERE) && vpn < VPNS && level < 2 && OnPath(root, level, vpn) !in node
    ensures OnPath(root, 0, vpn) !in node
  {
    PathStep(root, vpn);
    assert OnPath(root, 0, vpn) in node ==> NodeOk(mem, node, OnPath(root, 0, vpn), NOWHERE);
  }
}
