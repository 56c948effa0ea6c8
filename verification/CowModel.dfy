/** User memory with copy-on-write fork: reference-counted pages, the page tables of all
    processes as one map from (process, page number) to entry together with the pages that the
    tables take, and the operations of vm.c, kalloc.c and cowfault as functions of the state. */
module CowModel {
  import opened Counting
  import opened TableTree
  import opened Types

  const PGSIZE: nat := 4096
  const MAXVA: nat := 0x40_0000_0000  // 1 << 38

  type Content = seq<int>

  datatype Key = Key(pid: nat, vpn: nat)
  datatype PTE = PTE(ppn: nat, r: bool, w: bool, x: bool, u: bool, cow: bool)

  datatype Sys = Sys(
    ref: seq<nat>,          // num_ref_to_page
    free: seq<nat>,         // kmem.freelist, first page first
    page: seq<Content>,     // physical memory
    kern: multiset<nat>,    // pages the kernel keeps for itself, page tables among them
    pte: map<Key, PTE>,     // valid user entries of all page tables
    tab: map<Node, nat>)    // the pages of the page tables of all processes

  /** PGROUNDUP(sz) / PGSIZE. */
  function NPages(sz: nat): (n: nat)
    ensures sz <= n * 4096 < sz + 4096
  {
    (sz + 4095) / 4096
  }

  /** The page number and the offset of an address. */
  function Vpn(va: nat): nat {
    va / 4096
  }

  function Off(va: nat): (r: nat)
    ensures r < PGSIZE
  {
    va % 4096
  }

  function Junk(b: int): (c: Content)
    ensures |c| == PGSIZE && forall i :: 0 <= i < PGSIZE ==> c[i] == b
  {
    seq(PGSIZE, _ => b)
  }

  // ---- kalloc.c ----

  function Kalloc(s: Sys): (r: (Sys, Option<nat>))
    requires s.free != [] ==> s.free[0] < |s.ref| && s.free[0] < |s.page|
  {
    if s.free == [] then (s, None)
    else
      var p := s.free[0];
      if s.ref[p] != 0 then (s, None)
      else (s.(ref := s.ref[p := 1], free := s.free[1..], page := s.page[p := Junk(5)]), Some(p))
  }

  /** kfree of a page with a positive count; the source panics on count 0. */
  function Kfree(s: Sys, p: nat): (r: Sys)
    requires p < |s.ref| && p < |s.page| && s.ref[p] > 0
  {
    if s.ref[p] == 1 then s.(ref := s.ref[p := 0], free := [p] + s.free, page := s.page[p := Junk(1)])
    else s.(ref := s.ref[p := s.ref[p] - 1])
  }

  // ---- Consistency ----

  /** The page-table entries that map page `p`. */
  ghost function Mappers(pte: map<Key, PTE>, p: nat): set<Key> {
    set k | k in pte && pte[k].ppn == p
  }

  /** The free list holds exactly the pages with count 0, each once. */
  ghost predicate FreeOk(s: Sys) {
    && |s.ref| == |s.page|
    && Distinct(s.free)
    && (forall i :: 0 <= i < |s.free| ==> s.free[i] < |s.ref| && s.ref[s.free[i]] == 0)
    && (forall p :: 0 <= p < |s.ref| && s.ref[p] == 0 ==> p in s.free)
    && (forall p :: 0 <= p < |s.page| ==> |s.page[p]| == PGSIZE)
  }

  /** The count of page `p` beyond the entries that map it and the uses the kernel makes of it. */
  ghost function Extra(s: Sys, p: nat): int {
    if p < |s.ref| then s.ref[p] - |Mappers(s.pte, p)| - s.kern[p] else 0
  }

  /** No count is unaccounted for. */
  ghost predicate Exact(s: Sys) {
    forall p: nat :: Extra(s, p) == 0
  }

  /** From `s` to `s'`, page `n` gets one count that is unaccounted for, or none does if there
      is no page `n`. */
  ghost predicate Adds(s: Sys, s': Sys, n: int) {
    |s'.ref| == |s.ref| && forall p: nat :: Extra(s', p) == Extra(s, p) + if p == n then 1 else 0
  }

  /** Two different entries map one page. */
  ghost predicate SamePage(pte: map<Key, PTE>, j: Key, k: Key) {
    j in pte && k in pte && j != k && pte[j].ppn == pte[k].ppn
  }

  /** Two entries for one page are both copy-on-write and read-only. */
  ghost predicate SharedIsCow(pte: map<Key, PTE>) {
    && (forall k :: k in pte && pte[k].cow ==> !pte[k].w)
    && (forall j, k :: SamePage(pte, j, k) ==> pte[j].cow)
  }

  ghost predicate PagesOk(s: Sys) {
    && FreeOk(s)
    && (forall k :: k in s.pte ==> s.pte[k].ppn < |s.ref| && s.pte[k].ppn !in s.kern)
    && (forall p: nat :: Extra(s, p) >= 0)
    && SharedIsCow(s.pte)
  }

  /** Every table has a page of the kernel's to itself, and the table above it is there. */
  ghost predicate TabOk(s: Sys) {
    && Closed(s.tab)
    && (forall n :: n in s.tab ==> s.tab[n] in s.kern && s.tab[n] < |s.ref|)
    && (forall a, b :: SameTable(s.tab, a, b) ==> a == b)
  }

  /** What the processes see: the contents behind each entry. */
  ghost function Contents(s: Sys): map<Key, Content>
    requires forall k :: k in s.pte ==> s.pte[k].ppn < |s.page|
  {
    map k | k in s.pte :: s.page[s.pte[k].ppn]
  }

  /** Every entry of a consistent state has contents. */
  lemma {:induction false} Sees(s: Sys)
    requires PagesOk(s)
    ensures |s.ref| == |s.page| && forall k :: k in s.pte ==>
              s.pte[k].ppn < |s.page| && |s.page[s.pte[k].ppn]| == PGSIZE
    ensures Contents(s).Keys == s.pte.Keys
  {
  }

  lemma {:induction false} AddsBoth(s: Sys, s1: Sys, s2: Sys, n: int)
    requires (Adds(s, s1, -1) && Adds(s1, s2, n)) || (Adds(s, s1, n) && Adds(s1, s2, -1))
    ensures Adds(s, s2, n)
  {
  }

  lemma {:induction false} AddsBack(s: Sys, s1: Sys, s2: Sys, n: int)
    requires Adds(s, s1, n) && Adds(s2, s1, n)
    ensures Adds(s, s2, -1)
  {
  }

  // ---- Cardinality of mappers ----

  lemma {:induction false} MappersPut(pte: map<Key, PTE>, k: Key, e: PTE, p: nat)
    ensures |Mappers(pte[k := e], p)| == |Mappers(pte, p)| - (if k in pte && pte[k].ppn == p then 1 else 0)
                                         + (if e.ppn == p then 1 else 0)
  {
    var all, m := Mappers(pte, p), Mappers(pte, p) - {k};
    assert Mappers(pte[k := e], p) == if e.ppn == p then m + {k} else m;
    hide Mappers;
    assert |m| == |all| - if k in all then 1 else 0;
    assert |m + {k}| == |m| + 1;
  }

  lemma {:induction false} MappersDrop(pte: map<Key, PTE>, k: Key, p: nat)
    requires k in pte
    ensures |Mappers(pte - {k}, p)| == |Mappers(pte, p)| - (if pte[k].ppn == p then 1 else 0)
  {
    assert Mappers(pte - {k}, p) == Mappers(pte, p) - {k};
  }

  /** A mapped page has a positive count, and two entries for it count twice. */
  lemma {:induction false} MappedIsCounted(s: Sys, k: Key)
    requires PagesOk(s) && k in s.pte
    ensures s.ref[s.pte[k].ppn] > 0
    ensures s.ref[s.pte[k].ppn] == 1 ==> forall j :: j in s.pte && j != k ==> s.pte[j].ppn != s.pte[k].ppn
  {
    var p := s.pte[k].ppn;
    assert Extra(s, p) >= 0;
    assert k in Mappers(s.pte, p);
    CardMono({k}, Mappers(s.pte, p));
    forall j | j in s.pte && j != k && s.pte[j].ppn == p ensures s.ref[p] >= 2 {
      assert {j, k} <= Mappers(s.pte, p);
      CardMono({j, k}, Mappers(s.pte, p));
    }
  }

  lemma {:induction false} AllMappedCounted(s: Sys)
    requires PagesOk(s)
    ensures forall k :: k in s.pte ==> s.ref[s.pte[k].ppn] > 0
  {
    forall k | k in s.pte ensures s.ref[s.pte[k].ppn] > 0 { MappedIsCounted(s, k); }
  }

  /** kalloc never returns a page in use, and succeeds exactly when a page is free. */
  lemma {:induction false} KallocFresh(s: Sys)
    requires PagesOk(s)
    ensures Kalloc(s).1.None? <==> s.free == []
    ensures Kalloc(s).1.None? ==> Kalloc(s).0 == s
    ensures Kalloc(s).1.Some? ==> var p := Kalloc(s).1.value;
              p < |s.ref| && s.ref[p] == 0 && Mappers(s.pte, p) == {} && s.kern[p] == 0
  {
    if s.free != [] { assert Extra(s, s.free[0]) >= 0; }
  }

  // ---- A page counted once more than it is used ----

  /** One count of page `p` is not accounted for by an entry or by the kernel. */
  ghost predicate Spare(s: Sys, p: nat) {
    PagesOk(s) && p < |s.ref| && Extra(s, p) >= 1
  }

  /** kalloc hands out a page that is counted once and used by nobody. */
  lemma {:induction false} KallocOk(s: Sys)
    requires PagesOk(s) && s.free != []
    ensures var (s', r), n := Kalloc(s), s.free[0];
            && r == Some(n) && Spare(s', n) && Adds(s, s', n)
            && s'.pte == s.pte && s'.kern == s.kern && s'.tab == s.tab && s'.free == s.free[1..]
            && Mappers(s'.pte, n) == {} && s'.kern[n] == 0 && s'.ref[n] == 1
            && Contents(s') == Contents(s)
  {
    KallocFresh(s);
    var (s', r) := Kalloc(s);
    var n := s.free[0];
    assert s.free == [n] + s'.free;
    assert n !in s'.free;
    forall p: nat ensures Extra(s', p) == Extra(s, p) + if p == n then 1 else 0 { }
    assert Extra(s, n) == 0;
    forall k | k in s.pte ensures s.pte[k].ppn != n { assert k !in Mappers(s.pte, n); }
    assert Contents(s') == Contents(s);
  }

  /** kfree of the spare count. */
  lemma {:induction false} KfreeOk(s: Sys, p: nat)
    requires Spare(s, p)
    ensures s.ref[p] > 0
    ensures var s' := Kfree(s, p);
            && PagesOk(s') && Adds(s', s, p)
            && s'.pte == s.pte && s'.kern == s.kern && s'.tab == s.tab
            && Contents(s') == Contents(s)
  {
    var s' := Kfree(s, p);
    assert s.ref[p] == 1 ==> s'.free == [p] + s.free && p !in s.free;
    assert FreeOk(s');
    forall q: nat ensures Extra(s, q) == Extra(s', q) + if q == p then 1 else 0 { }
    assert forall q: nat :: Extra(s', q) >= 0;
    if s.ref[p] == 1 {
      assert Mappers(s.pte, p) == {};
      forall k | k in s.pte ensures s.pte[k].ppn != p { assert k !in Mappers(s.pte, p); }
    }
    assert Contents(s') == Contents(s);
  }

  /** increase_num_ref. */
  lemma {:induction false} IncrOk(s: Sys, p: nat)
    requires PagesOk(s) && p < |s.ref| && s.ref[p] > 0
    ensures var s' := s.(ref := s.ref[p := s.ref[p] + 1]);
            Spare(s', p) && Adds(s, s', p) && Contents(s') == Contents(s)
  {
    var s' := s.(ref := s.ref[p := s.ref[p] + 1]);
    forall q: nat ensures Extra(s', q) == Extra(s, q) + if q == p then 1 else 0 { }
    assert Extra(s, p) >= 0;
  }

  lemma {:induction false} SharedWithout(pte: map<Key, PTE>, k: Key, pte': map<Key, PTE>)
    requires SharedIsCow(pte) && pte' == pte - {k}
    ensures SharedIsCow(pte')
  {
    forall i, j ensures SamePage(pte', i, j) ==> SamePage(pte, i, j) { }
  }

  /** Clearing an entry leaves its count to be given back. */
  lemma {:induction false} ClearOk(s: Sys, k: Key)
    requires PagesOk(s) && k in s.pte
    ensures var s' := s.(pte := s.pte - {k});
            && Spare(s', s.pte[k].ppn) && Adds(s, s', s.pte[k].ppn)
            && Contents(s') == Contents(s) - {k}
  {
    var pte' := s.pte - {k};
    var s', p := s.(pte := pte'), s.pte[k].ppn;
    SharedWithout(s.pte, k, pte');
    forall q: nat ensures Extra(s', q) == Extra(s, q) + if q == p then 1 else 0 { MappersDrop(s.pte, k, q); }
    assert Extra(s, p) >= 0;
    assert Contents(s') == Contents(s) - {k};
  }

  lemma {:induction false} SharedPut(pte: map<Key, PTE>, k: Key, e: PTE)
    requires SharedIsCow(pte) && k !in pte && !(e.cow && e.w)
    requires forall j :: j in pte && pte[j].ppn == e.ppn ==> pte[j].cow && e.cow
    ensures SharedIsCow(pte[k := e])
  {
    var pte' := pte[k := e];
    forall i, j | SamePage(pte', i, j) ensures pte'[i].cow {
      assert i != k && j != k ==> SamePage(pte, i, j);
    }
  }

  /** An entry for the page with the spare count.  It must be the page's only entry, or all
      entries for the page must be copy-on-write. */
  lemma {:induction false} EnterOk(s: Sys, k: Key, e: PTE)
    requires Spare(s, e.ppn) && k !in s.pte && e.ppn !in s.kern && !(e.cow && e.w)
    requires forall j :: j in s.pte && s.pte[j].ppn == e.ppn ==> s.pte[j].cow && e.cow
    ensures var s' := s.(pte := s.pte[k := e]);
            && PagesOk(s') && Adds(s', s, e.ppn)
            && Contents(s') == Contents(s)[k := s.page[e.ppn]]
  {
    var s' := s.(pte := s.pte[k := e]);
    SharedPut(s.pte, k, e);
    forall q: nat ensures Extra(s, q) == Extra(s', q) + if q == e.ppn then 1 else 0 { MappersPut(s.pte, k, e, q); }
    assert forall q: nat :: Extra(s', q) >= 0;
    assert Contents(s') == Contents(s)[k := s.page[e.ppn]];
  }

  /** Changing the flags of an entry so that it is copy-on-write. */
  lemma {:induction false} MarkCowOk(s: Sys, k: Key)
    requires PagesOk(s) && k in s.pte
    ensures var s' := s.(pte := s.pte[k := s.pte[k].(w := false, cow := true)]);
            PagesOk(s') && Adds(s, s', -1) && Contents(s') == Contents(s)
  {
    var e := s.pte[k].(w := false, cow := true);
    var s' := s.(pte := s.pte[k := e]);
    forall i, j ensures SamePage(s'.pte, i, j) ==> SamePage(s.pte, i, j) { }
    forall q: nat ensures Extra(s', q) == Extra(s, q) { MappersPut(s.pte, k, e, q); }
    assert Contents(s') == Contents(s);
  }

  /** Storing into a page shows behind its only entry. */
  lemma {:induction false} WriteOk(s: Sys, k: Key, c: Content)
    requires PagesOk(s) && k in s.pte && |c| == PGSIZE && !s.pte[k].cow
    ensures var s' := s.(page := s.page[s.pte[k].ppn := c]);
            PagesOk(s') && Adds(s, s', -1) && Contents(s') == Contents(s)[k := c]
  {
    var s' := s.(page := s.page[s.pte[k].ppn := c]);
    forall j | j in s.pte && j != k ensures s.pte[j].ppn != s.pte[k].ppn { assert !SamePage(s.pte, k, j); }
    forall q: nat ensures Extra(s', q) == Extra(s, q) { }
    assert Contents(s') == Contents(s)[k := c];
  }

  /** Filling a page that no entry maps. */
  lemma {:induction false} FillOk(s: Sys, p: nat, c: Content)
    requires Spare(s, p) && Mappers(s.pte, p) == {} && |c| == PGSIZE
    ensures var s' := s.(page := s.page[p := c]);
            Spare(s', p) && Adds(s, s', -1) && Contents(s') == Contents(s)
  {
    var s' := s.(page := s.page[p := c]);
    forall q: nat ensures Extra(s', q) == Extra(s, q) { }
    forall k | k in s.pte ensures s.pte[k].ppn != p { assert k !in Mappers(s.pte, p); }
    assert Contents(s') == Contents(s);
  }

  /** The kernel takes the page with the spare count for itself. */
  lemma {:induction false} OwnOk(s: Sys, p: nat)
    requires Spare(s, p) && Mappers(s.pte, p) == {}
    ensures var s' := s.(kern := s.kern + multiset{p});
            PagesOk(s') && Adds(s', s, p) && Contents(s') == Contents(s)
  {
    var s' := s.(kern := s.kern + multiset{p});
    forall k | k in s.pte ensures s.pte[k].ppn != p { assert k !in Mappers(s.pte, p); }
    forall q: nat ensures Extra(s, q) == Extra(s', q) + if q == p then 1 else 0 { }
    assert forall q: nat :: Extra(s', q) >= 0;
  }

  lemma {:induction false} DisownOk(s: Sys, p: nat)
    requires PagesOk(s) && p in s.kern && p < |s.ref|
    ensures var s' := s.(kern := s.kern - multiset{p});
            Spare(s', p) && Adds(s, s', p) && Contents(s') == Contents(s)
  {
    var s' := s.(kern := s.kern - multiset{p});
    forall q: nat ensures Extra(s', q) == Extra(s, q) + if q == p then 1 else 0 { }
    assert Extra(s, p) >= 0;
  }

  // ---- Page tables ----

  function Zeros(): (c: Content)
    ensures Blank(c)
  {
    Junk(0)
  }

  /** A page of zero bytes. */
  ghost predicate Blank(c: Content) {
    |c| == PGSIZE && forall i :: 0 <= i < PGSIZE ==> c[i] == 0
  }

  /** kalloc, and memset to zero. */
  function ZeroPage(s: Sys): (r: Sys)
    requires PagesOk(s) && s.free != []
  {
    KallocOk(s);
    Kalloc(s).0.(page := Kalloc(s).0.page[s.free[0] := Zeros()])
  }

  lemma {:induction false} ZeroPageOk(s: Sys)
    requires PagesOk(s) && s.free != []
    ensures var s', n := ZeroPage(s), s.free[0];
            && Spare(s', n) && Adds(s, s', n) && Mappers(s'.pte, n) == {} && n !in s'.kern && s'.ref[n] == 1
            && s'.kern == s.kern && s'.pte == s.pte && s'.tab == s.tab && s'.free == s.free[1..]
            && Contents(s') == Contents(s) && s'.page[n] == Zeros()
  {
    KallocOk(s);
    FillOk(Kalloc(s).0, s.free[0], Zeros());
  }

  /** A new table. */
  function TakeTable(s: Sys, n: Node): (r: Sys)
    requires PagesOk(s) && s.free != []
  {
    ZeroPage(s).(kern := s.kern + multiset{s.free[0]}, tab := s.tab[n := s.free[0]])
  }

  lemma {:induction false} TakeTableOk(s: Sys, n: Node)
    requires PagesOk(s) && s.free != []
    ensures var s', p := TakeTable(s, n), s.free[0];
            && PagesOk(s') && Adds(s, s', -1) && Contents(s') == Contents(s) && s'.pte == s.pte
            && s'.kern == s.kern + multiset{p} && s'.tab == s.tab[n := p] && s'.free == s.free[1..]
            && p < |s.ref| && p !in s.kern && s.ref[p] == 0
  {
    ZeroPageOk(s);
    OwnOk(ZeroPage(s), s.free[0]);
    var s1, s' := ZeroPage(s).(kern := s.kern + multiset{s.free[0]}), TakeTable(s, n);
    forall q: nat ensures Extra(s', q) == Extra(s1, q) { }
  }

  lemma {:induction false} TakeTabOk(s: Sys, n: Node)
    requires PagesOk(s) && TabOk(s) && s.free != [] && n !in s.tab
    requires n.level <= 2 && (n.level == 2 ==> n.prefix == 0) && (n.level < 2 ==> Parent(n) in s.tab)
    ensures TabOk(TakeTable(s, n))
  {
    TakeTableOk(s, n);
    var s' := TakeTable(s, n);
    forall a, b | SameTable(s'.tab, a, b) ensures a == b { assert a != n && b != n ==> SameTable(s.tab, a, b); }
  }

  /** Giving back the page of a table. */
  function FreeTable(s: Sys, n: Node): (r: Sys)
    requires PagesOk(s) && TabOk(s) && n in s.tab
  {
    DisownOk(s, s.tab[n]);
    KfreeOk(s.(kern := s.kern - multiset{s.tab[n]}), s.tab[n]);
    Kfree(s, s.tab[n]).(kern := s.kern - multiset{s.tab[n]}, tab := s.tab - {n})
  }

  lemma {:induction false} FreeTableOk(s: Sys, n: Node)
    requires PagesOk(s) && TabOk(s) && n in s.tab && forall m :: m in s.tab && m.level < n.level ==> Parent(m) != n
    ensures var s' := FreeTable(s, n);
            && PagesOk(s') && TabOk(s') && Adds(s, s', -1) && Contents(s') == Contents(s) && s'.pte == s.pte
            && s'.tab == s.tab - {n}
  {
    var p, s' := s.tab[n], FreeTable(s, n);
    var s1 := s.(kern := s.kern - multiset{p});
    DisownOk(s, p);
    KfreeOk(s1, p);
    assert s' == Kfree(s1, p).(tab := s.tab - {n});
    forall q: nat ensures Extra(s', q) == Extra(Kfree(s1, p), q) { }
    FreeTabOk(s, n, s');
  }

  lemma {:induction false} FreeTabOk(s: Sys, n: Node, s': Sys)
    requires TabOk(s) && n in s.tab && forall m :: m in s.tab && m.level < n.level ==> Parent(m) != n
    requires s'.tab == s.tab - {n} && s'.kern == s.kern - multiset{s.tab[n]} && |s'.ref| == |s.ref|
    ensures TabOk(s')
  {
    forall m | m in s'.tab ensures s'.tab[m] in s'.kern { assert !SameTable(s.tab, m, n); }
    forall a, b | SameTable(s'.tab, a, b) ensures a == b { assert SameTable(s.tab, a, b); }
  }
}
