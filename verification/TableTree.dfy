/** The places of page tables: a tree of three levels for each process, with 512 entries to a
    table. */
module TableTree {
  import opened Counting

  const VPNS: nat := 0x400_0000       // MAXVA / PGSIZE

  /** PX(level, va), for the page number of `va`. */
  function Px(level: nat, vpn: nat): (i: nat)
    requires level <= 2
    ensures i < 512
  {
    if level == 2 then vpn / 0x4_0000 % 512 else if level == 1 then vpn / 512 % 512 else vpn % 512
  }

  /** The three indices are the bits of the page number. */
  lemma {:induction false} PxSplit(vpn: nat)
    requires vpn < 0x800_0000
    ensures vpn == (Px(2, vpn) * 512 + Px(1, vpn)) * 512 + Px(0, vpn)
  {
    assert vpn / 512 / 512 == vpn / 0x4_0000;
  }

  /** The table of a process for all page numbers that begin with `prefix`. */
  datatype Node = Node(root: nat, level: nat, prefix: nat)

  function Child(n: Node, i: nat): Node
    requires n.level > 0
  {
    Node(n.root, n.level - 1, n.prefix * 512 + i)
  }

  function Parent(n: Node): Node {
    Node(n.root, n.level + 1, n.prefix / 512)
  }

  /** The table of level `level` on the way to page `vpn`. */
  function OnPath(root: nat, level: nat, vpn: nat): Node {
    Node(root, level, if level == 2 then 0 else if level == 1 then vpn / 0x4_0000 else vpn / 512)
  }

  lemma {:induction false} PathStep(root: nat, vpn: nat)
    requires vpn < VPNS
    ensures Child(OnPath(root, 2, vpn), Px(2, vpn)) == OnPath(root, 1, vpn)
    ensures Child(OnPath(root, 1, vpn), Px(1, vpn)) == OnPath(root, 0, vpn)
    ensures Parent(OnPath(root, 0, vpn)) == OnPath(root, 1, vpn) && Parent(OnPath(root, 1, vpn)) == OnPath(root, 2, vpn)
  {
  }

  /** Two places have the same page. */
  ghost predicate SameTable(node: map<Node, nat>, a: Node, b: Node) {
    a in node && b in node && node[a] == node[b]
  }

  /** A table below the root has the table above it. */
  ghost predicate Closed(node: map<Node, nat>) {
    forall n :: n in node ==> n.level <= 2 && (n.level == 2 ==> n.prefix == 0) && (n.level < 2 ==> Parent(n) in node)
  }

  // ---- The tables on the way to a range of pages ----

  ghost function Path(root: nat, vpn: nat): set<Node> {
    {OnPath(root, 2, vpn), OnPath(root, 1, vpn), OnPath(root, 0, vpn)}
  }

  /** The tables of level `level` and above on the way to a page. */
  ghost function PathTo(root: nat, vpn: nat, level: nat): set<Node> {
    if level == 0 then Path(root, vpn)
    else if level == 1 then {OnPath(root, 2, vpn), OnPath(root, 1, vpn)}
    else {OnPath(root, 2, vpn)}
  }

  /** Going down one level: the next table is there, is made, or is one too many. */
  lemma {:induction false} PathDown(have: set<Node>, root: nat, vpn: nat, level: nat)
    requires 1 <= level <= 2
    ensures var n, a, b := OnPath(root, level - 1, vpn), PathTo(root, vpn, level), PathTo(root, vpn, level - 1);
            && b == a + {n} && n !in a && |b - have| == |a - have| + (if n in have then 0 else 1)
            && |b - have| <= |Path(root, vpn) - have|
  {
    var n, a, b := OnPath(root, level - 1, vpn), PathTo(root, vpn, level), PathTo(root, vpn, level - 1);
    assert b == a + {n} && n !in a && b <= Path(root, vpn);
    hide PathTo, Path;
    OneMissing(a, n, have);
    CardMono(b - have, Path(root, vpn) - have);
  }

  lemma {:induction false} OneMissing(a: set<Node>, n: Node, have: set<Node>)
    requires n !in a
    ensures |(a + {n}) - have| == |a - have| + if n in have then 0 else 1
  {
    assert (a + {n}) - have == if n in have then a - have else (a - have) + {n};
  }

  ghost function PathNodes(root: nat, lo: nat, hi: nat): set<Node>
    decreases hi - lo
  {
    if lo >= hi then {} else Path(root, lo) + PathNodes(root, lo + 1, hi)
  }

  lemma {:induction false} MissingNext(have: set<Node>, root: nat, lo: nat, hi: nat)
    requires lo < hi
    ensures |PathNodes(root, lo, hi) - have| ==
              |Path(root, lo) - have| + |PathNodes(root, lo + 1, hi) - (have + Path(root, lo))|
  {
    hide Path;
    var a, b := Path(root, lo) - have, PathNodes(root, lo + 1, hi) - (have + Path(root, lo));
    assert PathNodes(root, lo, hi) - have == a + b;
    assert a !! b;
  }

  /** From `left` free pages, tables were made for the places `want` that had none: all of
      them, if and only if the pages suffice. */
  ghost predicate Supplied(have: set<Node>, left: nat, want: set<Node>, ok: bool, have': set<Node>, left': nat) {
    && (ok <==> |want - have| <= left)
    && (ok ==> have' == have + want && left' == left - |want - have|)
  }

  lemma {:induction false} SuppliedIff(have: set<Node>, left: nat, want: set<Node>, ok: bool, have': set<Node>,
                                       left': nat)
    requires Supplied(have, left, want, ok, have', left')
    ensures ok <==> |want - have| <= left
  {
  }

  lemma {:induction false} SuppliedNone(have: set<Node>, left: nat, root: nat, vpn: nat)
    ensures Supplied(have, left, PathNodes(root, vpn, vpn), true, have, left)
  {
  }

  lemma {:induction false} SuppliedOne(have: set<Node>, left: nat, n: Node)
    requires n !in have && 0 < left
    ensures Supplied(have, left, {n}, true, have + {n}, left - 1)
  {
    assert {n} - have == {n};
  }

  /** One level of a walk: the next table is there, or is made from a free page if there is one. */
  lemma {:induction false} SuppliedDown(have: set<Node>, left: nat, root: nat, vpn: nat, level: nat, have1: set<Node>,
                                        left1: nat, have2: set<Node>, left2: nat)
    requires 1 <= level <= 2 && Supplied(have, left, PathTo(root, vpn, level), true, have1, left1)
    requires var n := OnPath(root, level - 1, vpn);
             if n in have1 || left1 == 0 then have2 == have1 && left2 == left1
               else have2 == have1 + {n} && left2 == left1 - 1
    ensures OnPath(root, level - 1, vpn) in have1 || left1 > 0 ==>
              Supplied(have, left, PathTo(root, vpn, level - 1), true, have2, left2)
    ensures !(OnPath(root, level - 1, vpn) in have1 || left1 > 0) ==>
              Supplied(have, left, Path(root, vpn), false, have2, left2)
  {
    hide PathTo, Path;
    PathDown(have, root, vpn, level);
  }

  lemma {:induction false} PathRoot(have: set<Node>, left: nat, root: nat, vpn: nat)
    requires Node(root, 2, 0) in have
    ensures Supplied(have, left, PathTo(root, vpn, 2), true, have, left)
    ensures PathTo(root, vpn, 0) == Path(root, vpn)
  {
    assert PathTo(root, vpn, 2) - have == {} && have + PathTo(root, vpn, 2) == have;
  }

  /** Tables for `p` and then for `q`, as a part of `all`. */
  lemma {:induction false} SuppliedBoth(have: set<Node>, left: nat, p: set<Node>, have1: set<Node>, left1: nat,
                                        q: set<Node>, ok: bool, have2: set<Node>, left2: nat, all: set<Node>)
    requires Supplied(have, left, p, true, have1, left1) && Supplied(have1, left1, q, ok, have2, left2) && p + q <= all
    ensures ok ==> Supplied(have, left, p + q, true, have2, left2)
    ensures !ok ==> Supplied(have, left, all, false, have2, left2)
  {
    assert (p + q) - have == (p - have) + (q - have1);
    assert (p - have) !! (q - have1);
    CardMono((p + q) - have, all - have);
  }

  lemma {:induction false} SuppliedLess(have: set<Node>, left: nat, p: set<Node>, all: set<Node>, have1: set<Node>,
                                        left1: nat, have2: set<Node>, left2: nat)
    requires Supplied(have, left, p, false, have1, left1) && p <= all
    ensures Supplied(have, left, all, false, have2, left2)
  {
    CardMono(p - have, all - have);
  }

  lemma {:induction false} SuppliedMore(have: set<Node>, left: nat, root: nat, lo: nat, a: nat, have1: set<Node>,
                                        left1: nat, ok: bool, have2: set<Node>, left2: nat, hi: nat)
    requires Supplied(have, left, PathNodes(root, lo, a), true, have1, left1) && lo <= a < hi
    requires Supplied(have1, left1, Path(root, a), ok, have2, left2)
    ensures ok ==> Supplied(have, left, PathNodes(root, lo, a + 1), true, have2, left2)
    ensures !ok ==> Supplied(have, left, PathNodes(root, lo, hi), false, have2, left2)
  {
    assert PathNodes(root, a, a + 1) == Path(root, a) by { assert PathNodes(root, a + 1, a + 1) == {}; }
    hide Path, PathNodes, Supplied;
    PathSplit(root, lo, a, a + 1);
    PathSplit(root, lo, a + 1, hi);
    SuppliedBoth(have, left, PathNodes(root, lo, a), have1, left1, Path(root, a), ok, have2, left2,
                 PathNodes(root, lo, hi));
  }

  lemma {:induction false} PathSplit(root: nat, lo: nat, mid: nat, hi: nat)
    requires lo <= mid <= hi
    ensures PathNodes(root, lo, hi) == PathNodes(root, lo, mid) + PathNodes(root, mid, hi)
    decreases mid - lo
  {
    if lo < mid { PathSplit(root, lo + 1, mid, hi); }
  }

  // ---- Subtrees ----

  /** The table of level `level` above a table. */
  ghost function Lift(m: Node, level: nat): Node
    decreases level - m.level
  {
    if m.level >= level then m else Lift(Parent(m), level)
  }

  ghost predicate Below(m: Node, n: Node) {
    m.level <= n.level && Lift(m, n.level) == n
  }

  ghost function Without(node: map<Node, nat>, n: Node): map<Node, nat> {
    map m | m in node && !Below(m, n) :: node[m]
  }

  /** Below one of the first `i` children of `n`. */
  ghost predicate BelowFirst(m: Node, n: Node, i: nat) {
    m.level < n.level && Below(m, n) && Lift(m, n.level - 1).prefix < n.prefix * 512 + i
  }

  ghost function Cleared(node: map<Node, nat>, n: Node, i: nat): map<Node, nat> {
    map m | m in node && !BelowFirst(m, n, i) :: node[m]
  }

  lemma {:induction false} LiftStep(m: Node, level: nat)
    requires m.level < level
    ensures Lift(m, level) == Parent(Lift(m, level - 1)) && Lift(m, level - 1).level == level - 1
    ensures Lift(m, level).root == m.root && Lift(m, level - 1).root == m.root
    decreases level - m.level
  {
    if m.level < level - 1 { LiftStep(Parent(m), level); LiftStep(m, level - 1); }
  }

  lemma {:induction false} BelowChild(m: Node, n: Node, i: nat)
    requires m.level < n.level && i < 512
    ensures Below(m, Child(n, i)) <==> Below(m, n) && Lift(m, n.level - 1).prefix == n.prefix * 512 + i
  {
    LiftStep(m, n.level);
  }

  lemma {:induction false} FirstNext(m: Node, n: Node, i: nat)
    requires 0 < n.level && i < 512
    ensures BelowFirst(m, n, i + 1) <==> BelowFirst(m, n, i) || Below(m, Child(n, i))
  {
    if m.level < n.level { BelowChild(m, n, i); }
  }

  lemma {:induction false} ClearedNext(node: map<Node, nat>, n: Node, i: nat)
    requires 0 < n.level && i < 512
    ensures Cleared(node, n, i + 1) == Without(Cleared(node, n, i), Child(n, i))
  {
    forall m | m in node ensures BelowFirst(m, n, i + 1) <==> BelowFirst(m, n, i) || Below(m, Child(n, i)) {
      FirstNext(m, n, i);
    }
  }

  /** Below a table are the table itself and what is below its children. */
  lemma {:induction false} BelowAll(m: Node, n: Node)
    ensures Below(m, n) <==> m == n || BelowFirst(m, n, 512)
    ensures !BelowFirst(m, n, 0)
  {
    if m.level < n.level { LiftStep(m, n.level); }
  }

  lemma {:induction false} ClearedAll(node: map<Node, nat>, n: Node)
    ensures Cleared(node, n, 512) - {n} == Without(node, n)
    ensures Cleared(node, n, 0) == node
    ensures forall m :: m in Cleared(node, n, 512) && m.level < n.level ==> !Below(m, n)
  {
    forall m | m in node ensures (Below(m, n) <==> m == n || BelowFirst(m, n, 512)) && !BelowFirst(m, n, 0) {
      BelowAll(m, n);
    }
  }

  /** The tables above a table are in the tree. */
  lemma {:induction false} BelowIn(node: map<Node, nat>, m: Node, c: Node)
    requires Closed(node) && m in node && Below(m, c) && c.level <= 2
    ensures c in node
    decreases c.level - m.level
  {
    if m.level < c.level { BelowIn(node, Parent(m), c); }
  }

  lemma {:induction false} NothingBelow(node: map<Node, nat>, c: Node)
    requires Closed(node) && c !in node && c.level <= 2
    ensures Without(node, c) == node && forall m :: m in node ==> !Below(m, c)
  {
    forall m | m in node ensures !Below(m, c) {
      if Below(m, c) { BelowIn(node, m, c); }
    }
  }

  lemma {:induction false} LiftIn(node: map<Node, nat>, m: Node)
    requires Closed(node) && m in node
    ensures m.level <= 2 && Lift(m, 2) == Node(m.root, 2, 0)
    decreases 2 - m.level
  {
    if m.level < 2 { LiftIn(node, Parent(m)); }
  }

  /** The tables below a root are those of its process. */
  lemma {:induction false} WholeTree(node: map<Node, nat>, root: nat)
    requires Closed(node)
    ensures Without(node, Node(root, 2, 0)) == map m | m in node && m.root != root :: node[m]
  {
    forall m | m in node ensures Below(m, Node(root, 2, 0)) <==> m.root == root {
      LiftIn(node, m);
    }
  }
}
