/** Sv39 page tables (section 4.4 of the RISC-V privileged architecture, version 20211203):
    three levels of table pages in memory, against the flat map from page number to entry
    that they stand for. */
module PageTable {
  import opened TableTree
  import opened Types

  datatype Perm = Perm(r: bool, w: bool, x: bool, u: bool, cow: bool)

  /** A page-table entry; the ones with PTE_V clear are all zero. */
  datatype Entry = Zero | Entry(ppn: nat, perm: Perm)

  const DIR := Perm(false, false, false, false, false)
  const JUNK := Entry(0x40_4040_4040_4040, Perm(false, false, false, false, true))  // bytes of value 1

  type Memory = seq<seq<Entry>>

  /** None of the bits R, W and X is set: the entry points to a table. */
  predicate IsDir(e: Entry) {
    e.Entry? && !e.perm.r && !e.perm.w && !e.perm.x
  }

  /** What the paging hardware finds for a page number: three loads. */
  function Lookup(mem: Memory, root: nat, vpn: nat): Entry
    requires forall p :: 0 <= p < |mem| ==> |mem[p]| == 512
  {
    match Table(mem, root, 2, vpn)
    case None => Zero
    case Some(t) => mem[t][Px(0, vpn)]
  }

  /** The level-0 table below the table `p`. */
  function Table(mem: Memory, p: nat, level: nat, vpn: nat): (r: Option<nat>)
    requires forall q :: 0 <= q < |mem| ==> |mem[q]| == 512
    requires level <= 2
    ensures r.Some? ==> r.value < |mem|
    decreases level
  {
    if p >= |mem| then None
    else if level == 0 then Some(p)
    else
      match mem[p][Px(level, vpn)]
      case Zero => None
      case Entry(c, _) => Table(mem, c, level - 1, vpn)
  }

  // ---- The tree of tables ----

  const NOWHERE := Node(0, 3, 0)

  ghost predicate PagesOk(mem: Memory) {
    forall p :: 0 <= p < |mem| ==> |mem[p]| == 512
  }

  /** Entry `i` of table `n` points to the table below, if there is one; at level 0 it is no
      table pointer.  Nothing is said of the entry for `stale`. */
  ghost predicate SlotOk(mem: Memory, node: map<Node, nat>, n: Node, i: nat, stale: Node)
    requires PagesOk(mem) && n in node && node[n] < |mem| && i < 512
  {
    var e := mem[node[n]][i];
    if n.level == 0 then !IsDir(e)
    else Child(n, i) == stale || e == if Child(n, i) in node then Entry(node[Child(n, i)], DIR) else Zero
  }

  ghost predicate NodeOk(mem: Memory, node: map<Node, nat>, n: Node, stale: Node)
    requires PagesOk(mem) && n in node
  {
    && n.level <= 2 && node[n] < |mem|
    && (n.level == 2 ==> n.prefix == 0)
    && (n.level < 2 ==> Parent(n) in node)
    && forall i: nat :: i < 512 ==> SlotOk(mem, node, n, i, stale)
  }

  /** The table pages form trees: each is the table of exactly one place, and holds exactly
      the pointers to the tables below it. */
  ghost predicate TreeOk(mem: Memory, node: map<Node, nat>, stale: Node) {
    && PagesOk(mem)
    && (forall n {:trigger NodeOk(mem, node, n, stale)} :: n in node ==> NodeOk(mem, node, n, stale))
    && (forall a, b :: SameTable(node, a, b) ==> a == b)
  }

  /** The flat map that the tables stand for. */
  ghost function At(mem: Memory, node: map<Node, nat>, root: nat, vpn: nat): Entry
    requires TreeOk(mem, node, NOWHERE)
  {
    if OnPath(root, 0, vpn) in node then
      assert NodeOk(mem, node, OnPath(root, 0, vpn), NOWHERE);
      mem[node[OnPath(root, 0, vpn)]][Px(0, vpn)]
    else Zero
  }

  /** The hardware's walk reads the flat map. */
  lemma {:induction false} LookupIs(mem: Memory, node: map<Node, nat>, root: nat, vpn: nat)
    requires TreeOk(mem, node, NOWHERE) && Node(root, 2, 0) in node && vpn < VPNS
    ensures Lookup(mem, node[Node(root, 2, 0)], vpn) == At(mem, node, root, vpn)
  {
    var n2, n1, n0 := OnPath(root, 2, vpn), OnPath(root, 1, vpn), OnPath(root, 0, vpn);
    PathStep(root, vpn);
    assert NodeOk(mem, node, n2, NOWHERE) && SlotOk(mem, node, n2, Px(2, vpn), NOWHERE);
    if n0 in node { assert NodeOk(mem, node, n0, NOWHERE); }
    if n1 in node {
      assert NodeOk(mem, node, n1, NOWHERE) && SlotOk(mem, node, n1, Px(1, vpn), NOWHERE);
      assert Table(mem, node[n1], 1, vpn) == if n0 in node then Some(node[n0]) else None;
    }
  }

  // ---- Changes to the tables ----

  const NPTE: nat := 512

  function Blank(): (r: seq<Entry>)
    ensures |r| == 512 && forall i :: 0 <= i < 512 ==> r[i] == Zero
  {
    seq(NPTE, _ => Zero)
  }

  ghost predicate Unused(node: map<Node, nat>, p: nat) {
    forall n :: n in node ==> node[n] != p
  }

  /** Both stand for the same flat map. */
  ghost predicate SameFlat(mem: Memory, node: map<Node, nat>, mem': Memory, node': map<Node, nat>)
    requires TreeOk(mem, node, NOWHERE) && TreeOk(mem', node', NOWHERE)
  {
    forall root: nat, vpn: nat :: At(mem', node', root, vpn) == At(mem, node, root, vpn)
  }

  /** A new empty tree. */
  lemma {:induction false} WithRootOk(mem: Memory, node: map<Node, nat>, root: nat, p: nat)
    requires TreeOk(mem, node, NOWHERE) && p < |mem| && Unused(node, p) && Node(root, 2, 0) !in node
    ensures var mem', node' := mem[p := Blank()], node[Node(root, 2, 0) := p];
            TreeOk(mem', node', NOWHERE) && SameFlat(mem, node, mem', node')
  {
    var k, mem', node' := Node(root, 2, 0), mem[p := Blank()], node[Node(root, 2, 0) := p];
    forall m | m in node' ensures NodeOk(mem', node', m, NOWHERE) {
      if m == k {
        forall j: nat | j < 512 ensures SlotOk(mem', node', k, j, NOWHERE) {
          assert Child(k, j) in node ==> NodeOk(mem, node, Child(k, j), NOWHERE);
        }
      } else {
        assert NodeOk(mem, node, m, NOWHERE);
        forall j: nat | j < 512 ensures SlotOk(mem', node', m, j, NOWHERE) {
          assert SlotOk(mem, node, m, j, NOWHERE);
        }
      }
    }
    forall a, b | SameTable(node', a, b) ensures a == b { assert a != k && b != k ==> SameTable(node, a, b); }
  }

  /** The new table of walk: a zeroed page, and a pointer to it. */
  function WithTable(mem: Memory, p: nat, i: nat, c: nat): (mem': Memory)
    requires PagesOk(mem) && p < |mem| && i < 512 && c < |mem|
    ensures PagesOk(mem')
  {
    var m := mem[c := Blank()];
    m[p := m[p][i := Entry(c, DIR)]]
  }

  /** Allocating a table in walk changes no translation. */
  lemma {:induction false} WithTableOk(mem: Memory, node: map<Node, nat>, n: Node, i: nat, c: nat)
    requires TreeOk(mem, node, NOWHERE) && n in node && NodeOk(mem, node, n, NOWHERE) && 0 < n.level && i < 512
    requires Child(n, i) !in node && c < |mem| && Unused(node, c)
    ensures var mem', node' := WithTable(mem, node[n], i, c), node[Child(n, i) := c];
            TreeOk(mem', node', NOWHERE) && SameFlat(mem, node, mem', node')
  {
    var mem', node', k := WithTable(mem, node[n], i, c), node[Child(n, i) := c], Child(n, i);
    forall m | m in node' ensures NodeOk(mem', node', m, NOWHERE) {
      if m == k {
        forall j: nat | j < 512 ensures SlotOk(mem', node', k, j, NOWHERE) {
          assert k.level > 0 && Child(k, j) in node ==> NodeOk(mem, node, Child(k, j), NOWHERE);
        }
      } else {
        assert NodeOk(mem, node, m, NOWHERE);
        assert m != n ==> !SameTable(node, m, n);
        forall j: nat | j < 512 ensures SlotOk(mem', node', m, j, NOWHERE) {
          assert SlotOk(mem, node, m, j, NOWHERE);
        }
      }
    }
    forall a, b | SameTable(node', a, b) ensures a == b { assert a != k && b != k ==> SameTable(node, a, b); }
    forall root: nat, vpn: nat ensures At(mem', node', root, vpn) == At(mem, node, root, vpn) {
      var m := OnPath(root, 0, vpn);
      assert m in node && m != n ==> !SameTable(node, m, n);
    }
  }

  /** An entry written at level 0. */
  function WithEntry(mem: Memory, p: nat, i: nat, e: Entry): (mem': Memory)
    requires PagesOk(mem) && p < |mem| && i < 512
    ensures PagesOk(mem')
  {
    mem[p := mem[p][i := e]]
  }

  /** It is the translation of one page of one process that changes. */
  lemma {:induction false} WithEntryOk(mem: Memory, node: map<Node, nat>, root: nat, vpn: nat, e: Entry)
    requires TreeOk(mem, node, NOWHERE) && OnPath(root, 0, vpn) in node
             && NodeOk(mem, node, OnPath(root, 0, vpn), NOWHERE)
    requires !IsDir(e)
    ensures var mem' := WithEntry(mem, node[OnPath(root, 0, vpn)], Px(0, vpn), e);
            && TreeOk(mem', node, NOWHERE)
            && forall r: nat, v: nat :: At(mem', node, r, v) == if r == root && v == vpn then e else At(mem, node, r, v)
  {
    var n, i := OnPath(root, 0, vpn), Px(0, vpn);
    var mem' := WithEntry(mem, node[n], i, e);
    forall m | m in node ensures NodeOk(mem', node, m, NOWHERE) {
      assert NodeOk(mem, node, m, NOWHERE);
      assert m != n ==> !SameTable(node, m, n);
      forall j: nat | j < 512 ensures SlotOk(mem', node, m, j, NOWHERE) {
        assert SlotOk(mem, node, m, j, NOWHERE);
      }
    }
    forall r: nat, v: nat ensures At(mem', node, r, v) == if r == root && v == vpn then e else At(mem, node, r, v) {
      var m := OnPath(r, 0, v);
      assert m in node && m != n ==> !SameTable(node, m, n);
    }
  }
}
