/** How the words of the page tables in memory stand for the entries of CowModel's state. */
module VmWords {
  import opened CowModel
  import opened CowFork
  import opened TableTree
  import opened Types
  import PT = PageTable
  import PO = PageTableOps

  const USERTOP: nat := VPNS - 2      // TRAPFRAME / PGSIZE

  function WordOf(e: PTE): PT.Entry {
    PT.Entry(e.ppn, PT.Perm(e.r, e.w, e.x, e.u, e.cow))
  }

  /** The word for a page: the user's entry, or the kernel's entry for the trapframe or the
      trampoline. */
  function WordAt(pte: map<Key, PTE>, tops: map<Key, PTE>, k: Key): PT.Entry {
    if k in pte then WordOf(pte[k]) else if k in tops then WordOf(tops[k]) else PT.Zero
  }

  /** User pages are below the trapframe, and the kernel's entries are not for users. */
  ghost predicate EntryOk(pte: map<Key, PTE>, tops: map<Key, PTE>, k: Key) {
    && (k in pte ==> k.vpn < USERTOP && pte[k].r)
    && (k in tops ==> USERTOP <= k.vpn < VPNS && tops[k].r && !tops[k].u)
  }

  /** The tables hold the word for the page. */
  ghost predicate Agrees(mem: PT.Memory, tops: map<Key, PTE>, s: Sys, k: Key)
    requires PT.TreeOk(mem, s.tab, PT.NOWHERE)
  {
    PT.At(mem, s.tab, k.pid, k.vpn) == WordAt(s.pte, tops, k) && EntryOk(s.pte, tops, k)
  }

  /** The words in `mem`, with the roots `pagetable`, stand for the user entries of `s` and the
      entries `tops`. */
  ghost predicate Coupled(mem: PT.Memory, pagetable: map<nat, nat>, tops: map<Key, PTE>, s: Sys) {
    && |mem| == |s.ref| && PT.TreeOk(mem, s.tab, PT.NOWHERE)
    && (forall pid :: pid in pagetable <==> Node(pid, 2, 0) in s.tab)
    && (forall pid :: pid in pagetable ==> pagetable[pid] == s.tab[Node(pid, 2, 0)])
    && (forall k :: Agrees(mem, tops, s, k))
  }

  /** The level-0 table for a page is there if the page has an entry, and its word for the page
      is what the maps say. */
  lemma {:induction false} WordIs(mem: PT.Memory, pagetable: map<nat, nat>, tops: map<Key, PTE>, s: Sys, k: Key)
    requires Coupled(mem, pagetable, tops, s)
    ensures EntryOk(s.pte, tops, k)
    ensures var n := OnPath(k.pid, 0, k.vpn);
            && (n in s.tab ==> s.tab[n] < |mem| && |mem[s.tab[n]]| == 512
                               && mem[s.tab[n]][Px(0, k.vpn)] == WordAt(s.pte, tops, k))
            && (k in s.pte || k in tops ==> n in s.tab)
  {
    assert Agrees(mem, tops, s, k);
    var n := OnPath(k.pid, 0, k.vpn);
    assert n in s.tab ==> PT.NodeOk(mem, s.tab, n, PT.NOWHERE);
  }

  /** The paging hardware finds that word. */
  lemma {:induction false} HardwareFinds(mem: PT.Memory, pagetable: map<nat, nat>, tops: map<Key, PTE>, s: Sys, k: Key)
    requires Coupled(mem, pagetable, tops, s) && k.pid in pagetable && k.vpn < VPNS
    ensures PT.PagesOk(mem) && PT.Lookup(mem, pagetable[k.pid], k.vpn) == WordAt(s.pte, tops, k)
    ensures EntryOk(s.pte, tops, k)
  {
    assert Agrees(mem, tops, s, k);
    PT.LookupIs(mem, s.tab, k.pid, k.vpn);
  }

  lemma {:induction false} SameWords(mem: PT.Memory, pagetable: map<nat, nat>, tops: map<Key, PTE>, s: Sys, s': Sys)
    requires Coupled(mem, pagetable, tops, s) && s'.pte == s.pte && s'.tab == s.tab && |s'.ref| == |s.ref|
    ensures Coupled(mem, pagetable, tops, s')
  {
    forall k ensures Agrees(mem, tops, s', k) { assert Agrees(mem, tops, s, k); }
  }

  /** A word written for a page, and the maps changed there. */
  lemma {:induction false} WordPut(mem: PT.Memory, pagetable: map<nat, nat>, tops: map<Key, PTE>, s: Sys, k: Key,
                                   tops': map<Key, PTE>, s': Sys)
    requires Coupled(mem, pagetable, tops, s) && OnPath(k.pid, 0, k.vpn) in s.tab && EntryOk(s'.pte, tops', k)
    requires s'.tab == s.tab && |s'.ref| == |s.ref| && s'.pte - {k} == s.pte - {k} && tops' - {k} == tops - {k}
    ensures var p := s.tab[OnPath(k.pid, 0, k.vpn)];
            && p < |mem| && PT.PagesOk(mem)
            && Coupled(PT.WithEntry(mem, p, Px(0, k.vpn), WordAt(s'.pte, tops', k)), pagetable, tops', s')
  {
    var n := OnPath(k.pid, 0, k.vpn);
    assert PT.NodeOk(mem, s.tab, n, PT.NOWHERE);
    var w := WordAt(s'.pte, tops', k);
    var mem' := PT.WithEntry(mem, s.tab[n], Px(0, k.vpn), w);
    PT.WithEntryOk(mem, s.tab, k.pid, k.vpn, w);
    hide PT.TreeOk, PT.WithEntry;
    forall j ensures Agrees(mem', tops', s', j) {
      assert Agrees(mem, tops, s, j);
      SameElsewhere(s.pte, s'.pte, k, j);
      SameElsewhere(tops, tops', k, j);
    }
  }

  lemma {:induction false} SameElsewhere(m: map<Key, PTE>, m': map<Key, PTE>, k: Key, j: Key)
    requires m' - {k} == m - {k}
    ensures j != k ==> (j in m' <==> j in m) && (j in m ==> m'[j] == m[j])
  {
    assert j != k ==> (j in m' <==> j in m' - {k}) && (j in m <==> j in m - {k});
    assert j != k && j in m ==> m'[j] == (m' - {k})[j];
  }

  /** The first free page is no table's. */
  lemma {:induction false} FreeUnused(s: Sys)
    requires PagesOk(s) && TabOk(s) && s.free != []
    ensures PT.Unused(s.tab, s.free[0]) && s.free[0] < |s.ref| == |ZeroPage(s).ref|
  {
    hide Adds;
    TakeTableOk(s, Node(0, 2, 0));
    ZeroPageOk(s);
    SizeKept(s, ZeroPage(s), s.free[0]);
  }

  /** A new table. */
  lemma {:induction false} WordTable(mem: PT.Memory, pagetable: map<nat, nat>, tops: map<Key, PTE>, s: Sys, n: Node,
                                     i: nat, s': Sys)
    requires Coupled(mem, pagetable, tops, s) && PagesOk(s) && TabOk(s) && s.free != []
    requires n in s.tab && 0 < n.level && i < 512 && Child(n, i) !in s.tab && s' == TakeTable(s, Child(n, i))
    ensures s.tab[n] < |mem| && PT.PagesOk(mem) && s.free[0] < |mem|
    ensures PagesOk(s') && TabOk(s') && Coupled(PT.WithTable(mem, s.tab[n], i, s.free[0]), pagetable, tops, s')
  {
    hide PagesOk, TabOk, Adds, TakeTable;
    var c, p := Child(n, i), s.free[0];
    assert PT.NodeOk(mem, s.tab, n, PT.NOWHERE);
    FreeUnused(s);
    TakeTableOk(s, c);
    TakeTabOk(s, c);
    SizeKept(s, s', -1);
    PT.WithTableOk(mem, s.tab, n, i, p);
    var mem' := PT.WithTable(mem, s.tab[n], i, p);
    assert |mem'| == |mem|;
    hide PT.TreeOk, PT.WithTable;
    forall j ensures Agrees(mem', tops, s', j) { assert Agrees(mem, tops, s, j); }
  }

  /** The root of a new process. */
  lemma {:induction false} WordRoot(mem: PT.Memory, pagetable: map<nat, nat>, tops: map<Key, PTE>, s: Sys, c: nat,
                                    s': Sys)
    requires Coupled(mem, pagetable, tops, s) && PagesOk(s) && TabOk(s) && s.free != [] && c !in pagetable
    requires s' == TakeTable(s, Node(c, 2, 0))
    ensures s.free[0] < |mem|
    ensures PagesOk(s') && TabOk(s') && Coupled(mem[s.free[0] := PT.Blank()], pagetable[c := s.free[0]], tops, s')
  {
    hide PagesOk, TabOk, Adds, TakeTable, PT.TreeOk;
    var n, p := Node(c, 2, 0), s.free[0];
    FreeUnused(s);
    TakeTableOk(s, n);
    TakeTabOk(s, n);
    SizeKept(s, s', -1);
    PT.WithRootOk(mem, s.tab, c, p);
    var mem' := mem[p := PT.Blank()];
    forall j ensures Agrees(mem', tops, s', j) { assert Agrees(mem, tops, s, j); }
  }

  /** A level-0 table has the level-1 table above it. */
  lemma {:induction false} TableAbove(tab: map<Node, nat>, pid: nat, vpn: nat)
    requires Closed(tab) && vpn < VPNS
    ensures OnPath(pid, 0, vpn) in tab ==> OnPath(pid, 1, vpn) in tab
  {
    PathStep(pid, vpn);
  }

  /** The page of an entry, and the first free page. */
  lemma {:induction false} PageIs(s: Sys, k: Key)
    requires PagesOk(s) && k in s.pte
    ensures s.pte[k].ppn < |s.ref| == |s.page| && s.ref[s.pte[k].ppn] > 0
    ensures s.free != [] ==> s.free[0] < |s.ref| && s.ref[s.free[0]] == 0
  {
    MappedIsCounted(s, k);
  }

  /** The tree of a process without entries is gone. */
  lemma {:induction false} WordsGone(mem: PT.Memory, pagetable: map<nat, nat>, tops: map<Key, PTE>, s: Sys, pid: nat,
                                     mem': PT.Memory, s': Sys)
    requires Coupled(mem, pagetable, tops, s) && TabOk(s) && NoWords(s.pte, tops, pid)
    requires PT.TreeOk(mem', s'.tab, Node(pid, 2, 0)) && PO.KeepsLeaves(mem, s.tab, mem', s'.tab)
    requires s'.tab == Without(s.tab, Node(pid, 2, 0)) && s'.pte == s.pte && |s'.ref| == |s.ref| == |mem'|
    ensures Coupled(mem', pagetable - {pid}, tops, s')
  {
    WholeTree(s.tab, pid);
    PO.TreeGone(mem, s.tab, pid, mem', s'.tab);
    hide PT.TreeOk, PO.KeepsLeaves, Without;
    forall k ensures Agrees(mem', tops, s', k) { assert Agrees(mem, tops, s, k); }
  }

  /** The process has no entries. */
  ghost predicate NoWords(pte: map<Key, PTE>, tops: map<Key, PTE>, pid: nat) {
    forall v: nat :: Key(pid, v) !in pte && Key(pid, v) !in tops
  }

  lemma {:induction false} NothingLeft(mem: PT.Memory, pagetable: map<nat, nat>, tops: map<Key, PTE>, s: Sys, pid: nat)
    requires Coupled(mem, pagetable, tops, s) && NoWords(s.pte, tops, pid)
    ensures PO.NoLeaves(mem, s.tab, Node(pid, 2, 0))
  {
    forall v: nat ensures PT.At(mem, s.tab, pid, v) == PT.Zero { assert Agrees(mem, tops, s, Key(pid, v)); }
    PO.NoLeavesFlat(mem, s.tab, pid);
  }

  /** kfree of a table that has none below it. */
  lemma {:induction false} WordsFreed(mem: PT.Memory, s: Sys, n: Node)
    requires PT.TreeOk(mem, s.tab, PT.NOWHERE) && Freeable(s, n, 512)
    ensures s.tab[n] < |mem|
    ensures var mem', tab' := mem[s.tab[n] := PO.Junk()], s.tab - {n};
            PT.TreeOk(mem', tab', n) && PO.KeepsLeaves(mem, s.tab, mem', tab')
  {
    forall m | m in s.tab && m.level < n.level ensures !Below(m, n) { BelowAll(m, n); }
    assert PT.NodeOk(mem, s.tab, n, PT.NOWHERE);
    PO.FreeTableOk(mem, s.tab, [], n, PO.Junk());
  }

  /** The entries of a level-0 table that is to go are all zero. */
  lemma {:induction false} LeafGone(mem: PT.Memory, tab: map<Node, nat>, n: Node, i: nat)
    requires PT.TreeOk(mem, tab, PT.NOWHERE) && n in tab && i < 512 && PO.NoLeaves(mem, tab, n)
    ensures tab[n] < |mem| && (PT.IsDir(mem[tab[n]][i]) || mem[tab[n]][i] == PT.Zero)
  {
    assert PT.NodeOk(mem, tab, n, PT.NOWHERE) && PT.SlotOk(mem, tab, n, i, PT.NOWHERE);
    if n.level == 0 { assert Below(n, n); }
  }
}
