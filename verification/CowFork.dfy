/** Copy-on-write refines eager copying: every operation on user memory does to what the
    processes see exactly what it does in a system where each process has its own pages. */
module CowFork {
  import opened CowModel
  import opened TableTree
  import opened Types

  /** The pages stay consistent, no count becomes unaccounted for or stops being so, and the
      kernel's pages are left alone. */
  ghost predicate Keeps(s: Sys, s': Sys) {
    PagesOk(s') && Adds(s, s', -1) && s'.kern == s.kern && s'.tab == s.tab
  }

  // ---- cowfault and stores ----

  /** The page copy of cowfault, into the first free page. */
  function Privatize(s: Sys, k: Key): (r: Sys)
    requires PagesOk(s) && k in s.pte && s.free != []
  {
    AllMappedCounted(s);
    KallocFresh(s);
    var pa, n, s1 := s.pte[k].ppn, s.free[0], Kalloc(s).0;
    var s2 := s1.(page := s1.page[n := s1.page[pa]], pte := s1.pte[k := PTE(n, true, true, true, true, false)]);
    Kfree(s2, pa)
  }

  /** The process gets a page of its own with the same contents, nobody sees a difference,
      and the old page loses exactly this use. */
  lemma {:induction false} PrivatizeOk(s: Sys, k: Key)
    requires PagesOk(s) && k in s.pte && s.free != []
    ensures var s' := Privatize(s, k);
            && Keeps(s, s') && Contents(s') == Contents(s)
            && s'.pte == s.pte[k := PTE(s.free[0], true, true, true, true, false)]
  {
    AllMappedCounted(s);
    KallocFresh(s);
    KallocOk(s);
    CopyIntoOk(Kalloc(s).0, k, s.free[0]);
    assert Kalloc(s).0.page[s.pte[k].ppn] == s.page[s.pte[k].ppn];
  }

  /** One page leaves the free list, and the old page joins it if this was its last use. */
  lemma {:induction false} PrivatizeCounts(s: Sys, k: Key)
    requires PagesOk(s) && k in s.pte && s.free != []
    ensures var s', n, pa := Privatize(s, k), s.free[0], s.pte[k].ppn;
            && n < |s.ref| && Mappers(s.pte, n) == {} && n != pa && s.ref[pa] > 0
            && s'.ref == s.ref[n := 1][pa := s.ref[pa] - 1]
            && |s'.free| == |s.free| - 1 + if s.ref[pa] == 1 then 1 else 0
  {
    AllMappedCounted(s);
    KallocFresh(s);
    assert s.pte[k].ppn != s.free[0];
  }

  /** Copying an entry's page into an unmapped page with a spare count, pointing the entry at
      it and giving back the old page. */
  lemma {:induction false} CopyIntoOk(s: Sys, k: Key, n: nat)
    requires Spare(s, n) && k in s.pte && Mappers(s.pte, n) == {} && n !in s.kern
    ensures var pa := s.pte[k].ppn;
            var s2 := s.(page := s.page[n := s.page[pa]], pte := s.pte[k := PTE(n, true, true, true, true, false)]);
            && Spare(s2, pa)
            && s2.ref[pa] > 0
            && var s' := Kfree(s2, pa);
               && PagesOk(s') && s'.kern == s.kern && s'.tab == s.tab && Adds(s', s, n)
               && s'.pte == s2.pte && Contents(s') == Contents(s)
  {
    var pa := s.pte[k].ppn;
    var s1 := s.(page := s.page[n := s.page[pa]]);
    FillOk(s, n, s.page[pa]);
    MoveOk(s1, k, n);
    KfreeOk(s1.(pte := s1.pte[k := PTE(n, true, true, true, true, false)]), pa);
    assert Contents(s)[k := s.page[pa]] == Contents(s);
  }

  lemma {:induction false} SharedMove(pte: map<Key, PTE>, k: Key, n: nat)
    requires SharedIsCow(pte) && forall j :: j in pte ==> pte[j].ppn != n
    ensures SharedIsCow(pte[k := PTE(n, true, true, true, true, false)])
  {
    var pte' := pte[k := PTE(n, true, true, true, true, false)];
    forall i, j ensures SamePage(pte', i, j) ==> SamePage(pte, i, j) { }
  }

  /** Pointing an entry at an unmapped page with a spare count moves the spare count to the
      page the entry pointed at. */
  lemma {:induction false} MoveOk(s: Sys, k: Key, n: nat)
    requires Spare(s, n) && k in s.pte && Mappers(s.pte, n) == {} && n !in s.kern
    ensures var s' := s.(pte := s.pte[k := PTE(n, true, true, true, true, false)]);
            && Spare(s', s.pte[k].ppn)
            && (forall q: nat :: Extra(s', q) + (if q == n then 1 else 0)
                               == Extra(s, q) + if q == s.pte[k].ppn then 1 else 0)
            && Contents(s') == Contents(s)[k := s.page[n]]
  {
    var e, pa := PTE(n, true, true, true, true, false), s.pte[k].ppn;
    var s' := s.(pte := s.pte[k := e]);
    forall j | j in s.pte ensures s.pte[j].ppn != n { assert j !in Mappers(s.pte, n); }
    SharedMove(s.pte, k, n);
    forall q: nat
      ensures Extra(s', q) + (if q == n then 1 else 0) == Extra(s, q) + if q == pa then 1 else 0
    {
      MappersPut(s.pte, k, e, q);
    }
    assert Extra(s, pa) >= 0;
    assert forall q: nat :: Extra(s, q) >= 0;
    assert Contents(s') == Contents(s)[k := s.page[n]];
  }

  /** cowfault: 0 on success, -1 otherwise. */
  function CowFault(s: Sys, pid: nat, va: nat): (r: (Sys, int))
    requires PagesOk(s)
  {
    if va >= MAXVA || va == 0 then (s, -1)
    else
      var k := Key(pid, Vpn(va));
      if k !in s.pte || !s.pte[k].u then (s, -1)
      else if !s.pte[k].cow then (s, 0)
      else if s.free == [] then (s, -1)
      else (Privatize(s, k), 0)
  }

  lemma {:induction false} CowFaultOk(s: Sys, pid: nat, va: nat)
    requires PagesOk(s)
    ensures var (s', r), k := CowFault(s, pid, va), Key(pid, Vpn(va));
            && Keeps(s, s') && Contents(s') == Contents(s) && s'.pte.Keys == s.pte.Keys
            && (r == 0 || (r == -1 && s' == s))
            && (r == 0 <==> 0 < va < MAXVA && k in s.pte && s.pte[k].u && (s.pte[k].cow ==> s.free != []))
            && (r == 0 ==> k in s'.pte && s'.pte[k].u && !s'.pte[k].cow)
            && (r == 0 ==> if s.pte[k].cow then s'.pte[k].r && s'.pte[k].w && s'.pte[k].x else s' == s)
            && (forall j :: j in s.pte && j != k ==> s'.pte[j] == s.pte[j])
  {
    var k := Key(pid, Vpn(va));
    if k in s.pte && s.free != [] { PrivatizeOk(s, k); }
  }

  /** A byte stored into a page. */
  function WriteByte(s: Sys, k: Key, off: nat, b: int): (r: Sys)
    requires PagesOk(s) && k in s.pte && off < PGSIZE
  {
    var p := s.pte[k].ppn;
    s.(page := s.page[p := s.page[p][off := b]])
  }

  /** A user store: the hardware writes through a writable user entry; otherwise the fault
      goes to cowfault and the store is tried again.  False: the process is killed, or faults
      for ever on a page that is read-only and not copy-on-write. */
  function Store(s: Sys, pid: nat, va: nat, b: int): (r: (Sys, bool))
    requires PagesOk(s)
  {
    var k := Key(pid, Vpn(va));
    if va < MAXVA && k in s.pte && s.pte[k].u && s.pte[k].w then (WriteByte(s, k, Off(va), b), true)
    else
      CowFaultOk(s, pid, va);
      var (s1, r) := CowFault(s, pid, va);
      if r == 0 && s1.pte[k].w then (WriteByte(s1, k, Off(va), b), true) else (s1, false)
  }

  /** A store happens in the storing process's memory alone; it is refused in exactly the
      listed cases. */
  lemma {:induction false} StoreOk(s: Sys, pid: nat, va: nat, b: int)
    requires PagesOk(s)
    ensures var (s', ok), k := Store(s, pid, va, b), Key(pid, Vpn(va));
            && Keeps(s, s') && s'.pte.Keys == s.pte.Keys
            && (ok ==> k in s.pte && |Contents(s)[k]| == PGSIZE
                       && Contents(s') == Contents(s)[k := Contents(s)[k][Off(va) := b]])
            && (!ok ==> Contents(s') == Contents(s))
            && (ok <==> va < MAXVA && k in s.pte && s.pte[k].u &&
                        (s.pte[k].w || (va != 0 && s.pte[k].cow && s.free != [])))
  {
    var k := Key(pid, Vpn(va));
    if va < MAXVA && k in s.pte && s.pte[k].u && s.pte[k].w {
      WriteOk(s, k, Contents(s)[k][Off(va) := b]);
    } else {
      CowFaultOk(s, pid, va);
      var (s1, r) := CowFault(s, pid, va);
      if r == 0 && s1.pte[k].w {
        assert Contents(s1)[k] == Contents(s)[k];
        WriteOk(s1, k, Contents(s1)[k][Off(va) := b]);
      }
    }
  }

  // ---- Page tables ----

  /** Tables of process `pid` may have come, made from free pages; nothing else has changed. */
  ghost predicate MoreTables(s: Sys, s': Sys, pid: nat) {
    && PagesOk(s') && TabOk(s') && Adds(s, s', -1) && s'.pte == s.pte
    && (forall k :: k in s.pte ==> s.pte[k].ppn < |s.page|) && Contents(s') == Contents(s)
    && (forall n :: n in s.tab ==> n in s'.tab && s'.tab[n] == s.tab[n])
    && (forall n :: n in s'.tab && n !in s.tab ==> n.root == pid)
    && (forall q: nat :: q < |s.ref| && q < |s.page| && s.ref[q] > 0 ==>
          s'.ref[q] == s.ref[q] && s'.kern[q] == s.kern[q] && s'.page[q] == s.page[q])
  }

  /** One level of walk with alloc: the table is there, or is made, or there is no page for it. */
  function Down(s: Sys, n: Node): (r: (Sys, bool))
    requires PagesOk(s)
  {
    if n in s.tab then (s, true) else if s.free == [] then (s, false) else (TakeTable(s, n), true)
  }

  lemma {:induction false} DownOk(s: Sys, n: Node)
    requires PagesOk(s) && TabOk(s) && n.level < 2 && Parent(n) in s.tab
    ensures var (s', ok) := Down(s, n);
            && MoreTables(s, s', n.root) && (ok <==> n in s.tab || |s.free| > 0) && (ok ==> n in s'.tab)
            && if n in s.tab || |s.free| == 0 then s' == s
               else s'.tab.Keys == s.tab.Keys + {n} && |s'.free| == |s.free| - 1
  {
    if n !in s.tab && s.free != [] {
      TakeTableOk(s, n);
      TakeTabOk(s, n);
    }
  }

  /** walk with alloc, to the level-0 table of page `vpn`. */
  function Walk(s: Sys, pid: nat, vpn: nat): (r: (Sys, bool))
    requires PagesOk(s) && TabOk(s) && Node(pid, 2, 0) in s.tab && vpn < VPNS
  {
    PathStep(pid, vpn);
    DownOk(s, OnPath(pid, 1, vpn));
    var (s1, ok) := Down(s, OnPath(pid, 1, vpn));
    if ok then Down(s1, OnPath(pid, 0, vpn)) else (s1, false)
  }

  lemma {:induction false} MoreTwice(s: Sys, s1: Sys, s2: Sys, pid: nat)
    requires MoreTables(s, s1, pid) && MoreTables(s1, s2, pid)
    ensures MoreTables(s, s2, pid)
  {
  }

  /** The tables on the way are all there in the end if and only if the free pages suffice. */
  lemma {:induction false} WalkOk(s: Sys, pid: nat, vpn: nat)
    requires PagesOk(s) && TabOk(s) && Node(pid, 2, 0) in s.tab && vpn < VPNS
    ensures var (s', ok) := Walk(s, pid, vpn);
            && MoreTables(s, s', pid) && Node(pid, 2, 0) in s'.tab
            && Supplied(s.tab.Keys, |s.free|, Path(pid, vpn), ok, s'.tab.Keys, |s'.free|)
  {
    hide PagesOk, TabOk, MoreTables, Supplied, Path, PathTo, TakeTable;
    PathStep(pid, vpn);
    var n1, n0 := OnPath(pid, 1, vpn), OnPath(pid, 0, vpn);
    DownOk(s, n1);
    var (s1, ok1) := Down(s, n1);
    PathRoot(s.tab.Keys, |s.free|, pid, vpn);
    SuppliedDown(s.tab.Keys, |s.free|, pid, vpn, 2, s.tab.Keys, |s.free|, s1.tab.Keys, |s1.free|);
    MoreIs(s, s1, pid);
    if ok1 {
      DownOk(s1, n0);
      var (s2, ok2) := Down(s1, n0);
      SuppliedDown(s.tab.Keys, |s.free|, pid, vpn, 1, s1.tab.Keys, |s1.free|, s2.tab.Keys, |s2.free|);
      MoreIs(s1, s2, pid);
      MoreTwice(s, s1, s2, pid);
    }
  }

  lemma {:induction false} MoreIs(s: Sys, s': Sys, pid: nat)
    requires MoreTables(s, s', pid)
    ensures PagesOk(s') && TabOk(s') && forall n :: n in s.tab ==> n in s'.tab
  {
  }

  /** A walk has come to level `level`, and is left to reach `goal`. */
  ghost predicate WalkLeft(s: Sys, pid: nat, vpn: nat, level: nat, goal: (Sys, bool)) {
    && PagesOk(s) && TabOk(s) && vpn < VPNS && level <= 2 && OnPath(pid, level, vpn) in s.tab
    && (level == 2 ==> Walk(s, pid, vpn) == goal)
    && (level == 1 ==> Down(s, OnPath(pid, 0, vpn)) == goal)
    && (level == 0 ==> goal == (s, true))
  }

  lemma {:induction false} WalkNext(s: Sys, pid: nat, vpn: nat, level: nat, s': Sys, ok: bool, goal: (Sys, bool))
    requires WalkLeft(s, pid, vpn, level, goal) && 1 <= level && (s', ok) == Down(s, OnPath(pid, level - 1, vpn))
    ensures PagesOk(s') && (if ok then WalkLeft(s', pid, vpn, level - 1, goal) else goal == (s', false))
  {
    hide PagesOk, TabOk, MoreTables, TakeTable;
    PathStep(pid, vpn);
    DownOk(s, OnPath(pid, level - 1, vpn));
    MoreIs(s, s', pid);
  }

  // ---- freewalk ----

  /** The subtree of table `n` is gone, its pages are given back, and nothing else has changed. */
  ghost predicate Freed(s: Sys, s': Sys, n: Node) {
    && PagesOk(s') && TabOk(s') && Adds(s, s', -1) && s'.pte == s.pte && s'.tab == Without(s.tab, n)
    && (forall k :: k in s.pte ==> s.pte[k].ppn < |s.page|) && Contents(s') == Contents(s)
  }

  /** The subtrees of the first `i` entries of table `n` are gone. */
  ghost predicate Freeable(s: Sys, n: Node, i: nat) {
    PagesOk(s) && TabOk(s) && n in s.tab && i <= 512 && forall m :: m in s.tab ==> !BelowFirst(m, n, i)
  }

  lemma {:induction false} LastFreed(s: Sys, n: Node, i: nat)
    requires Freeable(s, n, i) && (n.level == 0 || i == 512)
    ensures Freed(s, FreeTable(s, n), n)
  {
    forall m | m in s.tab ensures (Below(m, n) <==> m == n) && (m.level < n.level ==> Parent(m) != n) {
      BelowAll(m, n);
      if m.level < n.level { assert Parent(m) == n ==> Lift(m, n.level) == Lift(n, n.level); }
    }
    assert s.tab - {n} == Without(s.tab, n);
    Sees(s);
    FreeTableOk(s, n);
  }

  lemma {:induction false} TablePage(s: Sys, n: Node)
    requires PagesOk(s) && TabOk(s) && n in s.tab
    ensures s.tab[n] < |s.ref| == |s.page| && s.ref[s.tab[n]] > 0
  {
    DisownOk(s, s.tab[n]);
  }

  lemma {:induction false} ChildFreeable(s: Sys, n: Node, i: nat)
    requires Freeable(s, n, i) && 0 < n.level && i < 512
    ensures Child(n, i) in s.tab ==> Freeable(s, Child(n, i), 0)
    ensures Child(n, i) !in s.tab ==> Freeable(s, n, i + 1)
  {
    hide PagesOk, BelowFirst, Below;
    var c := Child(n, i);
    if c !in s.tab { NothingBelow(s.tab, c); }
    forall m | m in s.tab ensures !BelowFirst(m, c, 0) && (c !in s.tab ==> !BelowFirst(m, n, i + 1)) {
      BelowAll(m, c);
      FirstNext(m, n, i);
    }
  }

  lemma {:induction false} ChildFreed(s: Sys, n: Node, i: nat, s': Sys)
    requires Freeable(s, n, i) && 0 < n.level && i < 512 && Freed(s, s', Child(n, i))
    ensures Freeable(s', n, i + 1) && Without(s'.tab, n) == Without(s.tab, n)
  {
    hide PagesOk, BelowFirst;
    var c := Child(n, i);
    assert !Below(n, c);
    forall m | m in s.tab ensures (Below(m, c) ==> Below(m, n)) && (m in s'.tab ==> !BelowFirst(m, n, i + 1)) {
      FirstNext(m, n, i);
      if m.level < n.level { BelowChild(m, n, i); }
    }
  }

  lemma {:induction false} FreedBoth(s: Sys, s1: Sys, s2: Sys, c: Node, n: Node)
    requires Freed(s, s1, c) && Freed(s1, s2, n) && Without(s1.tab, n) == Without(s.tab, n)
    ensures Freed(s, s2, n)
  {
  }

  /** freewalk on table `n`, from entry `i` on. */
  function FreeFrom(s: Sys, n: Node, i: nat): (r: Sys)
    requires Freeable(s, n, i)
    ensures Freed(s, r, n)
    decreases n.level, 512 - i
  {
    if n.level == 0 || i == 512 then
      LastFreed(s, n, i);
      FreeTable(s, n)
    else
      ChildFreeable(s, n, i);
      if Child(n, i) in s.tab then
        var s1 := FreeFrom(s, Child(n, i), 0);
        ChildFreed(s, n, i, s1);
        var s2 := FreeFrom(s1, n, i + 1);
        FreedBoth(s, s1, s2, Child(n, i), n);
        s2
      else FreeFrom(s, n, i + 1)
  }

  lemma {:induction false} FreeableIs(s: Sys, n: Node, i: nat)
    requires Freeable(s, n, i)
    ensures PagesOk(s) && TabOk(s) && n in s.tab
  {
  }

  /** One round of freewalk; `s1` is the state after the subtree of entry `i` has gone, if
      there is one. */
  lemma {:induction false} FreeNext(s: Sys, n: Node, i: nat, s1: Sys)
    requires Freeable(s, n, i) && i < 512
    requires n.level > 0 && Child(n, i) in s.tab ==> Freeable(s, Child(n, i), 0) && s1 == FreeFrom(s, Child(n, i), 0)
    requires n.level == 0 || Child(n, i) !in s.tab ==> s1 == s
    ensures Freeable(s1, n, i + 1) && FreeFrom(s1, n, i + 1) == FreeFrom(s, n, i)
    ensures n in s.tab && n in s1.tab && s1.tab[n] == s.tab[n] && (n.level > 0 ==> Child(n, i) !in s1.tab)
  {
    hide PagesOk, TabOk;
    if n.level > 0 {
      ChildFreeable(s, n, i);
      if Child(n, i) in s.tab { ChildFreed(s, n, i, s1); }
    }
  }

  lemma {:induction false} TreeFreeable(s: Sys, pid: nat)
    requires PagesOk(s) && TabOk(s) && Node(pid, 2, 0) in s.tab
    ensures Freeable(s, Node(pid, 2, 0), 0)
  {
    forall m | m in s.tab ensures !BelowFirst(m, Node(pid, 2, 0), 0) { BelowAll(m, Node(pid, 2, 0)); }
  }

  /** freewalk on the page table of a process. */
  function FreeTables(s: Sys, pid: nat): (r: Sys)
    requires PagesOk(s) && TabOk(s) && Node(pid, 2, 0) in s.tab
  {
    TreeFreeable(s, pid);
    FreeFrom(s, Node(pid, 2, 0), 0)
  }

  /** All tables of the process go, and those of the other processes stay. */
  lemma {:induction false} FreeTablesOk(s: Sys, pid: nat)
    requires PagesOk(s) && TabOk(s) && Node(pid, 2, 0) in s.tab
    ensures var s' := FreeTables(s, pid);
            && PagesOk(s') && TabOk(s') && Adds(s, s', -1) && s'.pte == s.pte && Contents(s') == Contents(s)
            && s'.tab == map m | m in s.tab && m.root != pid :: s.tab[m]
  {
    TreeFreeable(s, pid);
    WholeTree(s.tab, pid);
  }

  // ---- fork ----

  /** One round of uvmcopy up to mappages: the parent's entry becomes copy-on-write and the
      page is counted once more. */
  function MarkAndCount(s: Sys, kp: Key): (r: Sys)
    requires PagesOk(s) && kp in s.pte
  {
    var p := s.pte[kp].ppn;
    s.(pte := s.pte[kp := s.pte[kp].(w := false, cow := true)], ref := s.ref[p := s.ref[p] + 1])
  }

  lemma {:induction false} MarkAndCountOk(s: Sys, kp: Key)
    requires PagesOk(s) && kp in s.pte
    ensures var s' := MarkAndCount(s, kp);
            && Spare(s', s.pte[kp].ppn) && Adds(s, s', s.pte[kp].ppn) && Contents(s') == Contents(s)
  {
    MarkCowOk(s, kp);
    var s1 := s.(pte := s.pte[kp := s.pte[kp].(w := false, cow := true)]);
    MappedIsCounted(s1, kp);
    IncrOk(s1, s.pte[kp].ppn);
  }

  /** One round of uvmcopy; false: there is no page for a table of the child. */
  function CopyStep(s: Sys, p: nat, c: nat, i: nat): (r: (Sys, bool))
    requires PagesOk(s) && TabOk(s) && Key(p, i) in s.pte && Node(c, 2, 0) in s.tab && i < VPNS
  {
    MarkAndCountOk(s, Key(p, i));
    var s1 := MarkAndCount(s, Key(p, i));
    WalkOk(s1, c, i);
    var (s2, ok) := Walk(s1, c, i);
    (if ok then s2.(pte := s2.pte[Key(c, i) := s2.pte[Key(p, i)]]) else s2, ok)
  }

  /** One round of uvmunmap with do_free. */
  function UnmapOne(s: Sys, k: Key): (r: Sys)
    requires PagesOk(s) && k in s.pte
  {
    AllMappedCounted(s);
    var s1 := Kfree(s, s.pte[k].ppn);
    s1.(pte := s1.pte - {k})
  }

  lemma {:induction false} UnmapOneOk(s: Sys, k: Key)
    requires PagesOk(s) && k in s.pte
    ensures var s' := UnmapOne(s, k);
            Keeps(s, s') && Contents(s') == Contents(s) - {k} && s'.pte == s.pte - {k}
  {
    ClearOk(s, k);
    KfreeOk(s.(pte := s.pte - {k}), s.pte[k].ppn);
    MappedIsCounted(s, k);
    assert UnmapOne(s, k) == Kfree(s.(pte := s.pte - {k}), s.pte[k].ppn);
  }

  /** Pages lo..hi-1 of the process are mapped. */
  ghost predicate HasPages(s: Sys, pid: nat, lo: nat, hi: nat) {
    forall v: nat :: lo <= v < hi ==> Key(pid, v) in s.pte
  }

  /** A map without the keys of pages v..hi-1. */
  ghost function RemoveRange<T>(m: map<Key, T>, pid: nat, v: nat, hi: nat): map<Key, T>
    requires v <= hi
    decreases hi - v
  {
    if v == hi then m else RemoveRange(m - {Key(pid, v)}, pid, v + 1, hi)
  }

  lemma {:induction false} RemovedAt<T>(m: map<Key, T>, pid: nat, v: nat, hi: nat)
    requires v <= hi
    ensures var r := RemoveRange(m, pid, v, hi);
            && (forall k :: k in r <==> k in m && !(k.pid == pid && v <= k.vpn < hi))
            && (forall k :: k in r ==> r[k] == m[k])
    decreases hi - v
  {
    if v < hi { RemovedAt(m - {Key(pid, v)}, pid, v + 1, hi); }
  }

  /** Removing one page more than there was before adding that page. */
  lemma {:induction false} RemoveAdded<T>(m: map<Key, T>, pid: nat, v: nat, hi: nat, x: T)
    requires v <= hi && Key(pid, hi) !in m
    ensures RemoveRange(m[Key(pid, hi) := x], pid, v, hi + 1) == RemoveRange(m, pid, v, hi)
  {
    RemovedAt(m[Key(pid, hi) := x], pid, v, hi + 1);
    RemovedAt(m, pid, v, hi);
  }

  lemma {:induction false} UnmapRound(s: Sys, pid: nat, v: nat, hi: nat)
    requires PagesOk(s) && v < hi && HasPages(s, pid, v, hi)
    ensures var s' := UnmapOne(s, Key(pid, v));
            Keeps(s, s') && HasPages(s', pid, v + 1, hi)
  {
    UnmapOneOk(s, Key(pid, v));
  }

  /** uvmunmap of pages v..hi-1 with do_free. */
  function Unmap(s: Sys, pid: nat, v: nat, hi: nat): (r: Sys)
    requires PagesOk(s) && v <= hi && HasPages(s, pid, v, hi)
    ensures Keeps(s, r)
    decreases hi - v
  {
    if v == hi then s
    else
      UnmapRound(s, pid, v, hi);
      Unmap(UnmapOne(s, Key(pid, v)), pid, v + 1, hi)
  }

  /** Unmapping pages v..hi-1 is left to do, to reach `goal`. */
  ghost predicate UnmapLeft(s: Sys, pid: nat, v: nat, hi: nat, goal: Sys) {
    PagesOk(s) && v <= hi && HasPages(s, pid, v, hi) && Unmap(s, pid, v, hi) == goal
  }

  lemma {:induction false} UnmapDone(s: Sys, pid: nat, v: nat, goal: Sys)
    requires UnmapLeft(s, pid, v, v, goal)
    ensures PagesOk(s) && s == goal
  {
  }

  lemma {:induction false} UnmapNext(s: Sys, pid: nat, v: nat, hi: nat, s': Sys, goal: Sys)
    requires UnmapLeft(s, pid, v, hi, goal) && v < hi && s' == UnmapOne(s, Key(pid, v))
    ensures UnmapLeft(s', pid, v + 1, hi, goal)
  {
    UnmapRound(s, pid, v, hi);
  }

  /** Exactly the named entries go, and nobody else sees anything. */
  lemma {:induction false} UnmapShows(s: Sys, pid: nat, v: nat, hi: nat)
    requires PagesOk(s) && v <= hi && HasPages(s, pid, v, hi)
    ensures Unmap(s, pid, v, hi).pte == RemoveRange(s.pte, pid, v, hi)
    ensures Contents(Unmap(s, pid, v, hi)) == RemoveRange(Contents(s), pid, v, hi)
    decreases hi - v
  {
    hide PagesOk, Adds, UnmapOne;
    if v < hi {
      UnmapRound(s, pid, v, hi);
      UnmapOneOk(s, Key(pid, v));
      UnmapShows(UnmapOne(s, Key(pid, v)), pid, v + 1, hi);
    }
  }

  /** Process `c` has no page from `v` on. */
  ghost predicate NoPages(s: Sys, c: nat, v: nat) {
    forall u: nat :: v <= u ==> Key(c, u) !in s.pte
  }

  /** Private copies of pages i..n-1 of process `p` for process `c`. */
  ghost function EagerCopy(m: map<Key, Content>, p: nat, c: nat, i: nat, n: nat): map<Key, Content>
    requires i <= n && p != c && forall v: nat :: i <= v < n ==> Key(p, v) in m
    decreases n - i
  {
    if i == n then m else EagerCopy(m[Key(c, i) := m[Key(p, i)]], p, c, i + 1, n)
  }

  lemma {:induction false} EagerCopyAt(m: map<Key, Content>, p: nat, c: nat, i: nat, n: nat)
    requires i <= n && p != c && forall v: nat :: i <= v < n ==> Key(p, v) in m
    ensures var r := EagerCopy(m, p, c, i, n);
            && (forall k :: k in r <==> k in m || (k.pid == c && i <= k.vpn < n))
            && (forall k :: k in r ==> r[k] == if k.pid == c && i <= k.vpn < n then m[Key(p, k.vpn)] else m[k])
    decreases n - i
  {
    if i < n { EagerCopyAt(m[Key(c, i) := m[Key(p, i)]], p, c, i + 1, n); }
  }

  /** Pages i..n-1 of process `p` are to be shared with process `c`, which has its first `i`
      pages and the root of its page table. */
  ghost predicate CopyReady(s: Sys, p: nat, c: nat, i: nat, n: nat) {
    && PagesOk(s) && TabOk(s) && Node(c, 2, 0) in s.tab && i <= n <= VPNS && p != c
    && HasPages(s, p, i, n) && HasPages(s, c, 0, i) && NoPages(s, c, i)
  }

  /** What a round keeps and does. */
  ghost predicate CopyRound(s: Sys, p: nat, c: nat, i: nat, n: nat, s': Sys, ok: bool)
    requires CopyReady(s, p, c, i, n) && i < n
  {
    && PagesOk(s') && Supplied(s.tab.Keys, |s.free|, Path(c, i), ok, s'.tab.Keys, |s'.free|)
    && (forall v: nat :: v < n && Key(p, v) in s.pte ==>
        Key(p, v) in s'.pte && s'.pte[Key(p, v)].ppn == s.pte[Key(p, v)].ppn)
    && TablesOf(s, s', c)
    && s'.pte == Marked(s.pte, p, c, i, ok)
    && if ok then
         CopyReady(s', p, c, i + 1, n) && Adds(s, s', -1)
           && Contents(s') == Contents(s)[Key(c, i) := Contents(s)[Key(p, i)]]
       else
         && HasPages(s', c, 0, i) && TabOk(s') && Node(c, 2, 0) in s'.tab
         && Adds(s, s', s.pte[Key(p, i)].ppn) && Contents(s') == Contents(s) && s'.pte.Keys == s.pte.Keys
  }

  /** The entry of page `i` of process `p` has become read-only and copy-on-write, and process `c`
      has the same entry if mappages succeeded. */
  ghost function Marked(pte: map<Key, PTE>, p: nat, c: nat, i: nat, ok: bool): map<Key, PTE>
    requires Key(p, i) in pte
  {
    var e := pte[Key(p, i)];
    var e' := PTE(e.ppn, e.r, false, e.x, e.u, true);
    if ok then pte[Key(p, i) := e'][Key(c, i) := e'] else pte[Key(p, i) := e']
  }

  /** Only tables of process `pid` have come, and none has gone or moved. */
  ghost predicate TablesOf(s: Sys, s': Sys, pid: nat) {
    && (forall n :: n in s.tab ==> n in s'.tab && s'.tab[n] == s.tab[n])
    && (forall n :: n in s'.tab && n !in s.tab ==> n.root == pid)
  }

  lemma {:induction false} CopyStepOk(s: Sys, p: nat, c: nat, i: nat, n: nat)
    requires CopyReady(s, p, c, i, n) && i < n
    ensures var (s', ok) := CopyStep(s, p, c, i); CopyRound(s, p, c, i, n, s', ok)
  {
    hide PagesOk, TabOk, Supplied, Path, Walk, Adds, Spare, MoreTables;
    var kp, kc, pg := Key(p, i), Key(c, i), s.pte[Key(p, i)].ppn;
    Sees(s);
    MarkAndCountOk(s, kp);
    var s1 := MarkAndCount(s, kp);
    SparePages(s1, pg);
    SameTab(s, s1);
    WalkOk(s1, c, i);
    var (s2, ok) := Walk(s1, c, i);
    WalkSpare(s1, s2, c, kp);
    AddsBoth(s, s1, s2, pg);
    if ok {
      ShareOk(s2, kp, kc);
      var s3 := s2.(pte := s2.pte[kc := s2.pte[kp]]);
      AddsBack(s, s2, s3, pg);
      SameTab(s2, s3);
    }
  }

  lemma {:induction false} SparePages(s: Sys, p: nat)
    requires Spare(s, p)
    ensures PagesOk(s)
  {
  }

  lemma {:induction false} SameTab(s: Sys, s': Sys)
    requires TabOk(s) && s'.tab == s.tab && s'.kern == s.kern && |s'.ref| == |s.ref|
    ensures TabOk(s')
  {
  }

  /** The spare count of a mapped page outlives a walk. */
  lemma {:induction false} WalkSpare(s: Sys, s': Sys, pid: nat, k: Key)
    requires k in s.pte && Spare(s, s.pte[k].ppn) && MoreTables(s, s', pid)
    ensures PagesOk(s') && TabOk(s') && Spare(s', s.pte[k].ppn) && Adds(s, s', -1)
    ensures s'.pte == s.pte && Contents(s') == Contents(s) && TablesOf(s, s', pid)
  {
    assert Extra(s', s.pte[k].ppn) == Extra(s, s.pte[k].ppn);
  }

  /** A second entry for a copy-on-write page with a spare count. */
  lemma {:induction false} ShareOk(s: Sys, kp: Key, kc: Key)
    requires kp in s.pte && kc !in s.pte && Spare(s, s.pte[kp].ppn) && s.pte[kp].cow && !s.pte[kp].w
    ensures var s' := s.(pte := s.pte[kc := s.pte[kp]]);
            && PagesOk(s') && Adds(s', s, s.pte[kp].ppn) && kp in Contents(s)
            && Contents(s') == Contents(s)[kc := Contents(s)[kp]]
  {
    forall j | j in s.pte && s.pte[j].ppn == s.pte[kp].ppn ensures s.pte[j].cow {
      assert j != kp ==> SamePage(s.pte, j, kp);
    }
    EnterOk(s, kc, s.pte[kp]);
  }

  /** uvmcopy from page `i` on. */
  function UvmCopy(s: Sys, p: nat, c: nat, i: nat, n: nat): (r: (Sys, bool))
    requires CopyReady(s, p, c, i, n)
    ensures PagesOk(r.0) && TabOk(r.0) && Node(c, 2, 0) in r.0.tab && |r.0.ref| == |s.ref|
    decreases n - i
  {
    if i == n then (s, true)
    else
      CopyStepOk(s, p, c, i, n);
      var (s', ok) := CopyStep(s, p, c, i);
      if ok then UvmCopy(s', p, c, i + 1, n) else (Unmap(s', c, 0, i), false)
  }

  /** Copying pages i..n-1 is left to do, to reach `goal`. */
  ghost predicate CopyLeft(s: Sys, p: nat, c: nat, i: nat, n: nat, goal: (Sys, bool)) {
    CopyReady(s, p, c, i, n) && UvmCopy(s, p, c, i, n) == goal
  }

  lemma {:induction false} CopyNext(s: Sys, p: nat, c: nat, i: nat, n: nat, s': Sys, ok: bool, goal: (Sys, bool))
    requires CopyLeft(s, p, c, i, n, goal) && i < n && (s', ok) == CopyStep(s, p, c, i)
    ensures !ok ==> PagesOk(s') && HasPages(s', c, 0, i) && goal == (Unmap(s', c, 0, i), false)
    ensures ok ==> CopyLeft(s', p, c, i + 1, n, goal)
  {
    CopyStepOk(s, p, c, i, n);
  }

  lemma {:induction false} CopyDone(s: Sys, p: nat, c: nat, n: nat, goal: (Sys, bool))
    requires CopyLeft(s, p, c, n, n, goal)
    ensures PagesOk(s) && goal == (s, true)
  {
  }

  /** Pages i..n-1 of process `p` have entries in process `c` as well, which allow the same but
      for writing: the pages are read-only and copy-on-write for both.  Nothing else changes. */
  ghost predicate Shared(pte: map<Key, PTE>, pte': map<Key, PTE>, p: nat, c: nat, i: nat, n: nat) {
    && (forall k :: k in pte' <==> k in pte || (k.pid == c && i <= k.vpn < n))
    && (forall k :: k in pte' && (k.pid == p || k.pid == c) && i <= k.vpn < n ==>
          && Key(p, k.vpn) in pte
          && var e, e' := pte[Key(p, k.vpn)], pte'[k];
             e'.ppn == e.ppn && e'.r == e.r && e'.x == e.x && e'.u == e.u && !e'.w && e'.cow)
    && (forall k :: k in pte' && !((k.pid == p || k.pid == c) && i <= k.vpn < n) ==> pte'[k] == pte[k])
  }

  /** Entries of process `p` may have become read-only and copy-on-write; the first `i` pages of
      process `c` are gone. */
  ghost predicate Unshared(pte: map<Key, PTE>, pte': map<Key, PTE>, p: nat, c: nat, i: nat) {
    && (forall k :: k in pte' <==> k in pte && !(k.pid == c && k.vpn < i))
    && (forall k :: k in pte' ==>
          && pte'[k].r == pte[k].r && pte'[k].x == pte[k].x && pte'[k].u == pte[k].u && pte'[k].ppn == pte[k].ppn
          && (pte'[k] == pte[k] || (k.pid == p && !pte'[k].w && pte'[k].cow)))
  }

  lemma {:induction false} SharedNext(pte: map<Key, PTE>, pte': map<Key, PTE>, p: nat, c: nat, i: nat, n: nat)
    requires Key(p, i) in pte && Key(c, i) !in pte && p != c && i < n
    ensures Shared(Marked(pte, p, c, i, true), pte', p, c, i + 1, n) ==> Shared(pte, pte', p, c, i, n)
    ensures Unshared(Marked(pte, p, c, i, true), pte', p, c, i + 1) ==> Unshared(pte, pte', p, c, i)
  {
  }

  lemma {:induction false} UnsharedIs(pte: map<Key, PTE>, p: nat, c: nat, i: nat)
    requires Key(p, i) in pte && p != c
    ensures Unshared(pte, RemoveRange(Marked(pte, p, c, i, false), c, 0, i), p, c, i)
  {
    RemovedAt(Marked(pte, p, c, i, false), c, 0, i);
  }

  /** What the processes may do with their pages after uvmcopy. */
  lemma {:induction false} UvmCopyFlags(s: Sys, p: nat, c: nat, i: nat, n: nat)
    requires CopyReady(s, p, c, i, n)
    ensures var (r, ok) := UvmCopy(s, p, c, i, n);
            if ok then Shared(s.pte, r.pte, p, c, i, n) else Unshared(s.pte, r.pte, p, c, i)
    decreases n - i
  {
    hide PagesOk, TabOk, CopyStep, Supplied, Adds, TablesOf, Marked, Shared, Unshared, Contents;
    if i < n {
      CopyStepOk(s, p, c, i, n);
      var (s', ok) := CopyStep(s, p, c, i);
      if ok {
        UvmCopyFlags(s', p, c, i + 1, n);
        SharedNext(s.pte, UvmCopy(s', p, c, i + 1, n).0.pte, p, c, i, n);
      } else {
        UnmapShows(s', c, 0, i);
        UnsharedIs(s.pte, p, c, i);
      }
    } else {
      NoneShared(s.pte, p, c, n);
    }
  }

  lemma {:induction false} NoneShared(pte: map<Key, PTE>, p: nat, c: nat, n: nat)
    ensures Shared(pte, pte, p, c, n, n)
  {
  }

  /** The outcome of uvmcopy: the child sees private copies and may use them as the parent may,
      or nothing is left of it. */
  lemma {:induction false} UvmCopyShows(s: Sys, p: nat, c: nat, i: nat, n: nat)
    requires CopyReady(s, p, c, i, n)
    ensures var (r, ok) := UvmCopy(s, p, c, i, n);
            && Contents(r) == (if ok then EagerCopy(Contents(s), p, c, i, n) else RemoveRange(Contents(s), c, 0, i))
            && if ok then Shared(s.pte, r.pte, p, c, i, n) else Unshared(s.pte, r.pte, p, c, i)
    decreases n - i
  {
    hide PagesOk, TabOk, CopyStep, Supplied, Adds, TablesOf, Shared, Unshared;
    UvmCopyFlags(s, p, c, i, n);
    Sees(s);
    if i < n {
      CopyStepOk(s, p, c, i, n);
      var (s', ok) := CopyStep(s, p, c, i);
      Sees(s');
      if ok {
        UvmCopyShows(s', p, c, i + 1, n);
        RemoveAdded(Contents(s), c, 0, i, Contents(s)[Key(p, i)]);
      } else {
        UnmapShows(s', c, 0, i);
      }
    }
  }

  /** uvmcopy succeeds if and only if the free pages suffice for the tables that the child
      lacks. */
  lemma {:induction false} UvmCopySupplied(s: Sys, p: nat, c: nat, i: nat, n: nat)
    requires CopyReady(s, p, c, i, n)
    ensures var (r, ok) := UvmCopy(s, p, c, i, n);
            && Supplied(s.tab.Keys, |s.free|, PathNodes(c, i, n), ok, r.tab.Keys, |r.free|)
            && TablesOf(s, r, c)
    decreases n - i
  {
    hide PagesOk, TabOk, CopyStep, Adds, Path, Supplied;
    if i < n {
      CopyStepOk(s, p, c, i, n);
      var (s', ok) := CopyStep(s, p, c, i);
      assert PathNodes(c, i, n) == Path(c, i) + PathNodes(c, i + 1, n);
      hide PathNodes;
      if ok {
        UvmCopySupplied(s', p, c, i + 1, n);
        var (r, ok') := UvmCopy(s', p, c, i + 1, n);
        SuppliedBoth(s.tab.Keys, |s.free|, Path(c, i), s'.tab.Keys, |s'.free|, PathNodes(c, i + 1, n), ok',
                     r.tab.Keys, |r.free|,
                     PathNodes(c, i, n));
      } else {
        var r := Unmap(s', c, 0, i);
        SuppliedLess(s.tab.Keys, |s.free|, Path(c, i), PathNodes(c, i, n), s'.tab.Keys, |s'.free|, r.tab.Keys,
                     |r.free|);
      }
    } else {
      SuppliedNone(s.tab.Keys, |s.free|, c, n);
    }
  }

  /** A page of the parent that ends up with one count too many. */
  ghost predicate Leaks(s: Sys, s': Sys, p: nat, v: nat) {
    Key(p, v) in s.pte && Adds(s, s', s.pte[Key(p, v)].ppn)
  }

  /** If uvmcopy succeeds every count stays accounted for as it was; if it fails, one page of
      the parent is counted once too often. */
  lemma {:induction false} UvmCopyCounts(s: Sys, p: nat, c: nat, i: nat, n: nat)
    requires CopyReady(s, p, c, i, n)
    ensures var (r, ok) := UvmCopy(s, p, c, i, n);
            if ok then Adds(s, r, -1) else exists v: nat :: i <= v < n && Leaks(s, r, p, v)
    decreases n - i
  {
    hide PagesOk, TabOk, CopyStep, Supplied, Extra;
    if i < n {
      CopyStepOk(s, p, c, i, n);
      var (s', ok) := CopyStep(s, p, c, i);
      if ok {
        UvmCopyCounts(s', p, c, i + 1, n);
        var r := UvmCopy(s', p, c, i + 1, n).0;
        if v: nat :| i + 1 <= v < n && Leaks(s', r, p, v) { assert Leaks(s, r, p, v); }
      } else {
        assert Leaks(s, Unmap(s', c, 0, i), p, i);
      }
    }
  }

  /** Counts stay exact if and only if there are free pages for the tables that the child
      lacks: a failed uvmcopy leaves the count of the page it could not map one too high. */
  lemma {:induction false} UvmCopyExactIff(s: Sys, p: nat, c: nat, n: nat)
    requires CopyReady(s, p, c, 0, n) && Exact(s)
    ensures Exact(UvmCopy(s, p, c, 0, n).0) <==> |PathNodes(c, 0, n) - s.tab.Keys| <= |s.free|
  {
    UvmCopySupplied(s, p, c, 0, n);
    UvmCopyCounts(s, p, c, 0, n);
    var (r, ok) := UvmCopy(s, p, c, 0, n);
    if !ok {
      var v: nat :| v < n && Leaks(s, r, p, v);
      assert Extra(r, s.pte[Key(p, v)].ppn) == 1;
    } else {
      assert forall q: nat :: Extra(r, q) == Extra(s, q);
    }
  }

  // ---- growth ----

  ghost function EagerGrow(m: map<Key, Content>, pid: nat, v: nat, hi: nat): map<Key, Content>
    requires v <= hi
    decreases hi - v
  {
    if v == hi then m else EagerGrow(m[Key(pid, v) := Zeros()], pid, v + 1, hi)
  }

  lemma {:induction false} EagerGrowAt(m: map<Key, Content>, pid: nat, v: nat, hi: nat)
    requires v <= hi
    ensures var r := EagerGrow(m, pid, v, hi);
            && (forall k :: k in r <==> k in m || (k.pid == pid && v <= k.vpn < hi))
            && (forall k :: k in r ==> r[k] == if k.pid == pid && v <= k.vpn < hi then Zeros() else m[k])
    decreases hi - v
  {
    if v < hi { EagerGrowAt(m[Key(pid, v) := Zeros()], pid, v + 1, hi); }
  }

  /** One round of uvmalloc; false: no page for the process's page or for a table. */
  function GrowStep(s: Sys, pid: nat, v: nat, w: bool, x: bool): (r: (Sys, bool))
    requires PagesOk(s) && TabOk(s) && Node(pid, 2, 0) in s.tab && v < VPNS
  {
    if s.free == [] then (s, false)
    else
      ZeroPageOk(s);
      var s1, mem := ZeroPage(s), s.free[0];
      WalkOk(s1, pid, v);
      var (s2, ok) := Walk(s1, pid, v);
      if ok then (s2.(pte := s2.pte[Key(pid, v) := PTE(mem, true, w, x, true, false)]), true)
      else (Kfree(s2, mem), false)
  }

  /** Pages v..hi-1 of the process have come: readable user pages, writable and executable as
      asked for.  Nothing else changes. */
  ghost predicate Grown(pte: map<Key, PTE>, pte': map<Key, PTE>, pid: nat, v: nat, hi: nat, w: bool, x: bool) {
    && (forall k :: k in pte' <==> k in pte || (k.pid == pid && v <= k.vpn < hi))
    && (forall k :: k in pte' && k.pid == pid && v <= k.vpn < hi ==>
          pte'[k].r && pte'[k].u && pte'[k].w == w && pte'[k].x == x && !pte'[k].cow)
    && (forall k :: k in pte' && !(k.pid == pid && v <= k.vpn < hi) ==> pte'[k] == pte[k])
  }

  lemma {:induction false} GrownNext(pte: map<Key, PTE>, pte1: map<Key, PTE>, pte2: map<Key, PTE>, pid: nat, v: nat,
                                     hi: nat, w: bool, x: bool)
    requires Grown(pte, pte1, pid, v, v + 1, w, x) && Grown(pte1, pte2, pid, v + 1, hi, w, x) && v < hi
    ensures Grown(pte, pte2, pid, v, hi, w, x)
  {
  }

  lemma {:induction false} OneGrown(pte: map<Key, PTE>, pid: nat, v: nat, p: nat, w: bool, x: bool)
    ensures Grown(pte, pte[Key(pid, v) := PTE(p, true, w, x, true, false)], pid, v, v + 1, w, x)
  {
  }

  lemma {:induction false} NoneGrown(pte: map<Key, PTE>, pid: nat, v: nat, w: bool, x: bool)
    ensures Grown(pte, pte, pid, v, v, w, x)
  {
  }

  /** What was added is gone again. */
  lemma {:induction false} GrownBack(pte: map<Key, PTE>, pte1: map<Key, PTE>, pid: nat, lo: nat, v: nat, w: bool,
                                     x: bool)
    requires Grown(pte, pte1, pid, v, v + 1, w, x) && lo <= v && Key(pid, v) !in pte
    ensures RemoveRange(pte1, pid, lo, v + 1) == RemoveRange(pte, pid, lo, v)
  {
    RemovedAt(pte1, pid, lo, v + 1);
    RemovedAt(pte, pid, lo, v);
  }

  /** Pages v..hi-1 are to be added to process `pid`, from page `lo` on. */
  ghost predicate GrowReady(s: Sys, pid: nat, lo: nat, v: nat, hi: nat) {
    && PagesOk(s) && TabOk(s) && Node(pid, 2, 0) in s.tab && lo <= v <= hi <= VPNS
    && HasPages(s, pid, lo, v) && NoPages(s, pid, v)
  }

  ghost predicate GrowRound(s: Sys, pid: nat, lo: nat, v: nat, hi: nat, w: bool, x: bool, s': Sys, ok: bool)
    requires GrowReady(s, pid, lo, v, hi) && v < hi
  {
    && Adds(s, s', -1) && TablesOf(s, s', pid)
    && (if ok then Grown(s.pte, s'.pte, pid, v, v + 1, w, x) else s'.pte == s.pte)
    && if ok then GrowReady(s', pid, lo, v + 1, hi) && Contents(s') == Contents(s)[Key(pid, v) := Zeros()]
       else GrowReady(s', pid, lo, v, hi) && Contents(s') == Contents(s)
  }

  /** A round succeeds if and only if there are pages for the new page and its missing tables. */
  lemma {:induction false} GrowStepFits(s: Sys, pid: nat, v: nat, w: bool, x: bool)
    requires PagesOk(s) && TabOk(s) && Node(pid, 2, 0) in s.tab && v < VPNS
    ensures var (s', ok) := GrowStep(s, pid, v, w, x);
            && (ok <==> 1 + |Path(pid, v) - s.tab.Keys| <= |s.free|)
            && (ok ==> s'.tab.Keys == s.tab.Keys + Path(pid, v)
                       && |s'.free| == |s.free| - 1 - |Path(pid, v) - s.tab.Keys|)
  {
    hide PagesOk, TabOk, Path, Walk, ZeroPage, Adds, Spare, MoreTables;
    if s.free != [] {
      ZeroPageOk(s);
      SparePages(ZeroPage(s), s.free[0]);
      SizeKept(s, ZeroPage(s), s.free[0]);
      SameTab(s, ZeroPage(s));
      WalkOk(ZeroPage(s), pid, v);
    }
  }

  lemma {:induction false} GrowStepOk(s: Sys, pid: nat, lo: nat, v: nat, hi: nat, w: bool, x: bool)
    requires GrowReady(s, pid, lo, v, hi) && v < hi
    ensures var (s', ok) := GrowStep(s, pid, v, w, x); GrowRound(s, pid, lo, v, hi, w, x, s', ok)
  {
    hide PagesOk, TabOk, Path, Walk, ZeroPage, Adds, Spare, Supplied, MoreTables, Mappers, Grown;
    Sees(s);
    NothingAdded(s);
    if s.free != [] {
      ZeroPageOk(s);
      var s1, mem := ZeroPage(s), s.free[0];
      SparePages(s1, mem);
      Sees(s1);
      SizeKept(s, s1, mem);
      SameTab(s, s1);
      WalkOk(s1, pid, v);
      var (s2, ok) := Walk(s1, pid, v);
      WalkFresh(s1, s2, pid, mem);
      AddsBoth(s, s1, s2, mem);
      if ok {
        FreshOk(s2, Key(pid, v), mem, w, x);
        var s3 := s2.(pte := s2.pte[Key(pid, v) := PTE(mem, true, w, x, true, false)]);
        AddsBack(s, s2, s3, mem);
        SameTab(s2, s3);
        OneGrown(s2.pte, pid, v, mem, w, x);
      } else {
        Sees(s2);
        SizeKept(s1, s2, -1);
        KfreeOk(s2, mem);
        AddsBack(s, s2, Kfree(s2, mem), mem);
        SizeKept(Kfree(s2, mem), s2, mem);
        SameTab(s2, Kfree(s2, mem));
      }
    }
  }

  lemma {:induction false} NothingAdded(s: Sys)
    ensures Adds(s, s, -1)
  {
  }

  lemma {:induction false} SizeKept(s: Sys, s': Sys, n: int)
    requires Adds(s, s', n)
    ensures |s'.ref| == |s.ref|
  {
  }

  /** A page that nobody maps keeps its spare count in a walk, and the walk does not take it. */
  lemma {:induction false} WalkFresh(s: Sys, s': Sys, pid: nat, p: nat)
    requires Spare(s, p) && Mappers(s.pte, p) == {} && p !in s.kern && MoreTables(s, s', pid)
    ensures PagesOk(s') && TabOk(s') && Spare(s', p) && Adds(s, s', -1) && p !in s'.kern && Mappers(s'.pte, p) == {}
    ensures s'.pte == s.pte && Contents(s') == Contents(s) && TablesOf(s, s', pid) && s'.page[p] == s.page[p]
  {
    assert Extra(s', p) == Extra(s, p);
  }

  /** The first entry for a page with a spare count. */
  lemma {:induction false} FreshOk(s: Sys, k: Key, p: nat, w: bool, x: bool)
    requires Spare(s, p) && Mappers(s.pte, p) == {} && p !in s.kern && k !in s.pte
    ensures var s' := s.(pte := s.pte[k := PTE(p, true, w, x, true, false)]);
            PagesOk(s') && Adds(s', s, p) && Contents(s') == Contents(s)[k := s.page[p]]
  {
    forall j | j in s.pte ensures s.pte[j].ppn != p { assert j !in Mappers(s.pte, p); }
    EnterOk(s, k, PTE(p, true, w, x, true, false));
  }

  /** uvmalloc from page `v` on, begun at page `lo`. */
  function UvmAlloc(s: Sys, pid: nat, lo: nat, v: nat, hi: nat, w: bool, x: bool): (r: (Sys, bool))
    requires GrowReady(s, pid, lo, v, hi)
    ensures PagesOk(r.0) && TabOk(r.0) && Node(pid, 2, 0) in r.0.tab && Adds(s, r.0, -1) && TablesOf(s, r.0, pid)
    decreases hi - v
  {
    if v == hi then (s, true)
    else
      GrowStepOk(s, pid, lo, v, hi, w, x);
      var (s', ok) := GrowStep(s, pid, v, w, x);
      if ok then UvmAlloc(s', pid, lo, v + 1, hi, w, x) else (Unmap(s', pid, lo, v), false)
  }

  /** A round of uvmalloc, with its page taken and then after the walk. */
  lemma {:induction false} GrowTaken(s: Sys, pid: nat, v: nat, s2: Sys, ok: bool)
    requires PagesOk(s) && TabOk(s) && Node(pid, 2, 0) in s.tab && v < VPNS && s.free != []
    ensures var s1 := ZeroPage(s);
            && PagesOk(s1) && TabOk(s1) && Node(pid, 2, 0) in s1.tab
            && ((s2, ok) == Walk(s1, pid, v) ==> PagesOk(s2) && s.free[0] < |s2.ref| == |s2.page|
                                                 && s2.ref[s.free[0]] > 0)
  {
    hide PagesOk, TabOk, Walk, ZeroPage, Adds, Spare, MoreTables, Mappers, Supplied;
    ZeroPageOk(s);
    var s1, mem := ZeroPage(s), s.free[0];
    SparePages(s1, mem);
    SizeKept(s, s1, mem);
    SameTab(s, s1);
    WalkOk(s1, pid, v);
    if (s2, ok) == Walk(s1, pid, v) {
      WalkFresh(s1, s2, pid, mem);
      Sees(s2);
      SpareIs(s2, mem);
    }
  }

  lemma {:induction false} SpareIs(s: Sys, p: nat)
    requires Spare(s, p)
    ensures p < |s.ref| && s.ref[p] > 0
  {
  }

  /** Growing by pages v..hi-1 is left to do, to reach `goal`. */
  ghost predicate GrowLeft(s: Sys, pid: nat, lo: nat, v: nat, hi: nat, w: bool, x: bool, goal: (Sys, bool)) {
    GrowReady(s, pid, lo, v, hi) && UvmAlloc(s, pid, lo, v, hi, w, x) == goal
  }

  lemma {:induction false} GrowNext(s: Sys, pid: nat, lo: nat, v: nat, hi: nat, w: bool, x: bool, s': Sys, ok: bool,
                                    goal: (Sys, bool))
    requires GrowLeft(s, pid, lo, v, hi, w, x, goal) && v < hi && (s', ok) == GrowStep(s, pid, v, w, x)
    ensures !ok ==> PagesOk(s') && HasPages(s', pid, lo, v) && goal == (Unmap(s', pid, lo, v), false)
    ensures ok ==> GrowLeft(s', pid, lo, v + 1, hi, w, x, goal)
  {
    GrowStepOk(s, pid, lo, v, hi, w, x);
  }

  lemma {:induction false} GrowDone(s: Sys, pid: nat, lo: nat, hi: nat, w: bool, x: bool, goal: (Sys, bool))
    requires GrowLeft(s, pid, lo, hi, hi, w, x, goal)
    ensures PagesOk(s) && goal == (s, true)
  {
  }

  /** The entries after uvmalloc. */
  lemma {:induction false} UvmAllocFlags(s: Sys, pid: nat, lo: nat, v: nat, hi: nat, w: bool, x: bool)
    requires GrowReady(s, pid, lo, v, hi)
    ensures var (r, ok) := UvmAlloc(s, pid, lo, v, hi, w, x);
            if ok then Grown(s.pte, r.pte, pid, v, hi, w, x) else r.pte == RemoveRange(s.pte, pid, lo, v)
    decreases hi - v
  {
    hide PagesOk, TabOk, GrowStep, Adds, TablesOf, Grown, RemoveRange, Contents;
    if v < hi {
      GrowStepOk(s, pid, lo, v, hi, w, x);
      var (s', ok) := GrowStep(s, pid, v, w, x);
      if ok {
        UvmAllocFlags(s', pid, lo, v + 1, hi, w, x);
        var (r, ok') := UvmAlloc(s', pid, lo, v + 1, hi, w, x);
        if ok' { GrownNext(s.pte, s'.pte, r.pte, pid, v, hi, w, x); }
          else { GrownBack(s.pte, s'.pte, pid, lo, v, w, x); }
      } else {
        UnmapShows(s', pid, lo, v);
      }
    } else {
      NoneGrown(s.pte, pid, v, w, x);
    }
  }

  /** All the new pages, for the user and with every byte zero, or none of them. */
  lemma {:induction false} UvmAllocShows(s: Sys, pid: nat, lo: nat, v: nat, hi: nat, w: bool, x: bool)
    requires GrowReady(s, pid, lo, v, hi)
    ensures var (r, ok) := UvmAlloc(s, pid, lo, v, hi, w, x);
            && Contents(r) == (if ok then EagerGrow(Contents(s), pid, v, hi) else RemoveRange(Contents(s), pid, lo, v))
            && (if ok then Grown(s.pte, r.pte, pid, v, hi, w, x) else r.pte == RemoveRange(s.pte, pid, lo, v))
            && (ok ==> forall u: nat :: v <= u < hi ==> Key(pid, u) in Contents(r) && Blank(Contents(r)[Key(pid, u)]))
    decreases hi - v
  {
    UvmAllocFlags(s, pid, lo, v, hi, w, x);
    UvmAllocMem(s, pid, lo, v, hi, w, x);
    Sees(s);
    EagerGrowAt(Contents(s), pid, v, hi);
  }

  lemma {:induction false} UvmAllocMem(s: Sys, pid: nat, lo: nat, v: nat, hi: nat, w: bool, x: bool)
    requires GrowReady(s, pid, lo, v, hi)
    ensures var (r, ok) := UvmAlloc(s, pid, lo, v, hi, w, x);
            Contents(r) == if ok then EagerGrow(Contents(s), pid, v, hi) else RemoveRange(Contents(s), pid, lo, v)
    decreases hi - v
  {
    hide PagesOk, TabOk, GrowStep, Adds, TablesOf;
    Sees(s);
    if v < hi {
      GrowStepOk(s, pid, lo, v, hi, w, x);
      var (s', ok) := GrowStep(s, pid, v, w, x);
      Sees(s');
      if ok {
        UvmAllocMem(s', pid, lo, v + 1, hi, w, x);
        RemoveAdded(Contents(s), pid, lo, v, Zeros());
      } else {
        UnmapShows(s', pid, lo, v);
      }
    }
  }

  /** A successful uvmalloc has made the tables on the way to the new pages. */
  lemma {:induction false} UvmAllocTables(s: Sys, pid: nat, lo: nat, v: nat, hi: nat, w: bool, x: bool)
    requires GrowReady(s, pid, lo, v, hi)
    ensures UvmAlloc(s, pid, lo, v, hi, w, x).1 ==>
              PathNodes(pid, v, hi) <= UvmAlloc(s, pid, lo, v, hi, w, x).0.tab.Keys
    decreases hi - v
  {
    hide PagesOk, TabOk, GrowStep, Adds, Path;
    if v < hi {
      GrowStepOk(s, pid, lo, v, hi, w, x);
      GrowStepFits(s, pid, v, w, x);
      var (s', ok) := GrowStep(s, pid, v, w, x);
      if ok { UvmAllocTables(s', pid, lo, v + 1, hi, w, x); }
    }
  }

  /** uvmalloc succeeds if and only if the free pages suffice for the new pages and for the
      tables that are missing. */
  lemma {:induction false} UvmAllocIff(s: Sys, pid: nat, lo: nat, v: nat, hi: nat, w: bool, x: bool)
    requires GrowReady(s, pid, lo, v, hi)
    ensures UvmAlloc(s, pid, lo, v, hi, w, x).1 <==> hi - v + |PathNodes(pid, v, hi) - s.tab.Keys| <= |s.free|
    decreases hi - v
  {
    hide PagesOk, TabOk, GrowStep, Adds, TablesOf, Path;
    if v < hi {
      GrowStepOk(s, pid, lo, v, hi, w, x);
      GrowStepFits(s, pid, v, w, x);
      var (s', ok) := GrowStep(s, pid, v, w, x);
      MissingNext(s.tab.Keys, pid, v, hi);
      if ok { UvmAllocIff(s', pid, lo, v + 1, hi, w, x); }
    }
  }
}
