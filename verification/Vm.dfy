/** The loops of vm.c and cowfault on the words of page tables, over the page allocator, each
    proved to do to the map of user entries, and to the pages, what the corresponding function
    of CowFork and CowSystem does. */
module Vm {
  import opened CowModel
  import opened CowFork
  import opened CowSystem
  import opened TableTree
  import opened Types
  import opened VmWords
  import PageAllocator
  import PO = PageTableOps
  import PT = PageTable

  /** Physical memory: the pages and their allocator. */
  class Frames {
    const km: PageAllocator.Kmem
    var page: seq<Content>

    /** The system `s` with this memory. */
    ghost function In(s: Sys): Sys
      reads this, km
    {
      s.(ref := km.ref, free := km.free, page := page)
    }

    /** After kinit: every page is free and filled with junk. */
    constructor (npages: nat)
      ensures fresh(km) && km.Valid() && |page| == |km.ref| == npages
      ensures forall p :: 0 <= p < npages ==> km.ref[p] == 0 && p in km.free && page[p] == Junk(1)
    {
      km := new PageAllocator.Kmem(npages);
      page := seq(npages, _ => Junk(1));
      new;
      forall p | 0 <= p < npages ensures p in km.free {
        assert km.free[npages - 1 - p] == p;
      }
    }

    /** kfree, which fills a page that becomes free with junk. */
    method FreePage(p: nat, ghost s: Sys)
      requires km.Valid() && In(s) == s && p < |s.ref| == |s.page| && s.ref[p] > 0
      modifies this, km
      ensures km.Valid() && In(s) == Kfree(s, p)
    {
      if km.ref[p] == 1 {
        page := page[p := Junk(1)];
      }
      km.Kfree(p);
    }

    /** kalloc, which fills the page with junk. */
    method AllocPage(ghost s: Sys) returns (p: int)
      requires km.Valid() && In(s) == s && PagesOk(s)
      modifies this, km
      ensures s.free != [] ==> s.free[0] < |s.ref| == |s.page|
      ensures km.Valid() && In(s) == Kalloc(s).0 && p == if s.free == [] then -1 else s.free[0]
    {
      KallocFresh(s);
      p := km.Kalloc();
      if p != -1 {
        page := page[p := Junk(5)];
      }
    }

    /** A zeroed page. */
    method NewPage(ghost s: Sys) returns (p: int)
      requires km.Valid() && In(s) == s && PagesOk(s)
      modifies this, km
      ensures km.Valid() && p == if s.free == [] then -1 else s.free[0]
      ensures In(s) == if s.free == [] then s else ZeroPage(s)
      ensures p != -1 ==> p < |page| && Blank(page[p])
    {
      KallocFresh(s);
      p := AllocPage(s);
      if p != -1 {
        page := page[p := Zeros()];
      }
    }
  }

  /** The entries of a new process for the trampoline and the trapframe. */
  function WithTops(tops: map<Key, PTE>, c: nat, trampoline: nat, trapframe: nat): map<Key, PTE> {
    tops[Key(c, TOP) := PTE(trampoline, true, false, true, false, false)]
        [Key(c, USERTOP) := PTE(trapframe, true, true, false, false, false)]
  }

  /** After cowfault, walkaddr finds the page. */
  lemma {:induction false} FaultFinds(s: Sys, pid: nat, va: nat)
    requires PagesOk(s)
    ensures var (s', r), k := CowFork.CowFault(s, pid, va), Key(pid, Vpn(va));
            r >= 0 ==> va < MAXVA && k in s'.pte && s'.pte[k].u
  {
    CowFaultOk(s, pid, va);
  }

  class Machine {
    const frames: Frames
    var mem: PT.Memory                // the words of the pages that hold tables
    var pagetable: map<nat, nat>      // the root of the page table of each process
    ghost var pte: map<Key, PTE>      // what the words stand for: user entries,
    ghost var tops: map<Key, PTE>     // entries for the trampoline and the trapframe,
    ghost var tab: map<Node, nat>     // and places in the trees
    ghost var kern: multiset<nat>

    ghost function State(): Sys
      reads this, frames, frames.km
    {
      Sys(frames.km.ref, frames.km.free, frames.page, kern, pte, tab)
    }

    ghost predicate Valid()
      reads this, frames, frames.km
    {
      frames.km.Valid() && PagesOk(State()) && TabOk(State()) && Coupled(mem, pagetable, tops, State())
    }

    /** After kinit there are no tables. */
    constructor (npages: nat)
      ensures Valid() && fresh(frames) && fresh(frames.km) && Exact(State()) && pte == map[] && tops == map[]
              && pagetable == map[] && |mem| == npages
    {
      frames := new Frames(npages);
      mem := seq(npages, _ => seq(PT.NPTE, _ => PT.JUNK));
      pagetable := map[];
      pte := map[];
      tops := map[];
      tab := map[];
      kern := multiset{};
      new;
      forall p: nat ensures Extra(State(), p) == 0 {
        assert Mappers(pte, p) == {};
      }
      forall k ensures Agrees(mem, tops, State(), k) { }
    }

    /** walk without alloc, as far as the level-0 table; -1: there is none. */
    method Find(pid: nat, vpn: nat) returns (t: int)
      requires Valid() && pid in pagetable && vpn < VPNS
      ensures t == if OnPath(pid, 0, vpn) in tab then tab[OnPath(pid, 0, vpn)] else -1
    {
      PathStep(pid, vpn);
      TableAbove(tab, pid, vpn);
      t := pagetable[pid];
      var level := 2;
      while level > 0
        invariant 0 <= level <= 2 && OnPath(pid, level, vpn) in tab && t == tab[OnPath(pid, level, vpn)]
      {
        ghost var n := OnPath(pid, level, vpn);
        assert PT.NodeOk(mem, tab, n, PT.NOWHERE) && PT.SlotOk(mem, tab, n, Px(level, vpn), PT.NOWHERE);
        match mem[t][Px(level, vpn)]
        case Zero =>
          return -1;
        case Entry(c, _) =>
          t, level := c, level - 1;
      }
    }

    /** walkaddr, for page numbers; -1 for 0. */
    method WalkAddr(pid: nat, va: nat) returns (p: int)
      requires Valid() && pid in pagetable
      ensures var k := Key(pid, Vpn(va));
              p == if va < MAXVA && k in pte && pte[k].u then pte[k].ppn else -1
    {
      hide PagesOk, TabOk, Coupled;
      if va >= MAXVA { return -1; }
      WordIs(mem, pagetable, tops, State(), Key(pid, Vpn(va)));
      var t := Find(pid, Vpn(va));
      if t == -1 { return -1; }
      var w := mem[t][Px(0, Vpn(va))];
      if w.Zero? || !w.perm.u { return -1; }
      return w.ppn;
    }

    /** The copy of cowfault: word `i` of table `t` gets a page of its own; -1: no page. */
    method CopyWord(ghost k: Key, t: nat, i: nat) returns (r: int)
      requires Valid() && k in pte && OnPath(k.pid, 0, k.vpn) in tab
      requires t == tab[OnPath(k.pid, 0, k.vpn)] && i == Px(0, k.vpn)
      modifies this`mem, this`pte, frames, frames.km
      ensures Valid()
      ensures (State(), r) == if old(State()).free == [] then (old(State()), -1) else (Privatize(old(State()), k), 0)
    {
      hide PagesOk, TabOk, Coupled, Adds, Contents;
      ghost var s := State();
      WordIs(mem, pagetable, tops, s, k);
      PageIs(s, k);
      if s.free != [] { PrivatizeOk(s, k); }
      var pa := mem[t][i].ppn;
      var n := frames.AllocPage(s);
      if n == -1 { return -1; }
      frames.page := frames.page[n := frames.page[pa]];
      pte := pte[k := PTE(n, true, true, true, true, false)];
      frames.FreePage(pa, State());
      assert State() == Privatize(s, k);
      WordPut(mem, pagetable, tops, s, k, tops, State());
      SameTab(s, State());
      mem := PT.WithEntry(mem, t, i, PT.Entry(n, PT.Perm(true, true, true, true, false)));
      return 0;
    }

    /** cowfault. */
    method CowFault(pid: nat, va: nat) returns (r: int)
      requires Valid() && pid in pagetable
      modifies this`mem, this`pte, frames, frames.km
      ensures Valid() && (State(), r) == CowFork.CowFault(old(State()), pid, va)
    {
      hide PagesOk, TabOk, Coupled, Privatize;
      if va >= MAXVA { return -1; }
      if va == 0 { return -1; }
      var v := Vpn(va);
      WordIs(mem, pagetable, tops, State(), Key(pid, v));
      var t := Find(pid, v);
      if t == -1 { return -1; }
      var w := mem[t][Px(0, v)];
      if w.Zero? { return -1; }
      if !w.perm.u { return -1; }
      if !w.perm.cow { return 0; }
      r := CopyWord(Key(pid, v), t, Px(0, v));
    }

    /** The hardware's part of a store: three loads, the check of the word they find, and the
        store itself. */
    method TryStore(pid: nat, va: nat, b: int) returns (ok: bool)
      requires Valid() && pid in pagetable && va < MAXVA
      modifies frames
      ensures TabOk(State()) && Coupled(mem, pagetable, tops, State())
      ensures var s, k := old(State()), Key(pid, Vpn(va));
              && ok == (k in s.pte && s.pte[k].u && s.pte[k].w)
              && State() == if ok then WriteByte(s, k, Off(va), b) else s
    {
      hide TabOk, Coupled;
      HardwareFinds(mem, pagetable, tops, State(), Key(pid, Vpn(va)));
      var w := PT.Lookup(mem, pagetable[pid], Vpn(va));
      if w.Zero? || !w.perm.u || !w.perm.w { return false; }
      ghost var s := State();
      frames.page := frames.page[w.ppn := frames.page[w.ppn][Off(va) := b]];
      SameTab(s, State());
      SameWords(mem, pagetable, tops, s, State());
      return true;
    }

    /** A user store, tried again after cowfault. */
    method Store(pid: nat, va: nat, b: int) returns (ok: bool)
      requires Valid() && pid in pagetable
      modifies this`mem, this`pte, frames, frames.km
      ensures Valid() && (State(), ok) == CowFork.Store(old(State()), pid, va, b)
    {
      hide PagesOk, TabOk, Coupled, Privatize, WriteByte;
      ghost var s := State();
      StoreOk(s, pid, va, b);
      if va < MAXVA {
        ok := TryStore(pid, va, b);
        if ok { return; }
      }
      CowFaultOk(s, pid, va);
      var r := CowFault(pid, va);
      if r < 0 { return false; }
      ok := TryStore(pid, va, b);
    }

    /** One round of uvmunmap; the walk finds the entry. */
    method UnmapPage(pid: nat, v: nat, ghost hi: nat, ghost goal: Sys)
      requires Valid() && pid in pagetable && UnmapLeft(State(), pid, v, hi, goal) && v < hi
      modifies this`mem, this`pte, frames, frames.km
      ensures Valid() && UnmapLeft(State(), pid, v + 1, hi, goal)
    {
      hide PagesOk, TabOk, Coupled, Unmap;
      ghost var s, k := State(), Key(pid, v);
      WordIs(mem, pagetable, tops, s, k);
      PageIs(s, k);
      var t := Find(pid, v);
      var w := mem[t][Px(0, v)];
      frames.FreePage(w.ppn, s);
      pte := pte - {k};
      UnmapNext(s, pid, v, hi, State(), goal);
      WordPut(mem, pagetable, tops, s, k, tops, State());
      SameTab(s, State());
      mem := PT.WithEntry(mem, t, Px(0, v), PT.Zero);
    }

    /** uvmunmap with do_free. */
    method UvmUnmap(pid: nat, v: nat, npages: nat)
      requires Valid() && pid in pagetable && HasPages(State(), pid, v, v + npages)
      modifies this`mem, this`pte, frames, frames.km
      ensures Valid() && State() == Unmap(old(State()), pid, v, v + npages)
    {
      hide Unmap, PagesOk, TabOk, Coupled, HasPages;
      ghost var goal := Unmap(State(), pid, v, v + npages);
      var a := v;
      while a < v + npages
        invariant v <= a <= v + npages && Valid() && UnmapLeft(State(), pid, a, v + npages, goal)
      {
        UnmapPage(pid, a, v + npages, goal);
        a := a + 1;
      }
      UnmapDone(State(), pid, a, goal);
    }

    /** uvmcreate, for process `c`; -1 for null. */
    method UvmCreate(c: nat) returns (root: int)
      requires Valid() && c !in pagetable
      modifies this`mem, this`pagetable, this`tab, this`kern, frames, frames.km
      ensures root >= -1 && Valid() && (State(), root != -1) == CowFork.Down(old(State()), Node(c, 2, 0))
      ensures pagetable == if root == -1 then old(pagetable) else old(pagetable)[c := root]
    {
      hide PagesOk, TabOk;
      ghost var s := State();
      root := frames.NewPage(s);
      if root == -1 { return; }
      WordRoot(mem, pagetable, tops, s, c, TakeTable(s, Node(c, 2, 0)));
      mem := mem[root := PT.Blank()];
      pagetable := pagetable[c := root];
      tab := tab[Node(c, 2, 0) := root];
      kern := kern + multiset{root};
    }

    /** One level of walk with alloc, below entry `i` of the table `n` in page `t`; -1: no page. */
    method Down(ghost n: Node, t: nat, i: nat) returns (c: int)
      requires Valid() && n in tab && tab[n] == t && 0 < n.level && i < 512
      modifies this`mem, this`tab, this`kern, frames, frames.km
      ensures Valid() && (State(), c != -1) == CowFork.Down(old(State()), Child(n, i))
      ensures c != -1 ==> Child(n, i) in tab && c == tab[Child(n, i)]
    {
      hide PagesOk, TabOk;
      ghost var s := State();
      assert PT.NodeOk(mem, tab, n, PT.NOWHERE) && PT.SlotOk(mem, tab, n, i, PT.NOWHERE);
      match mem[t][i]
      case Entry(p, _) =>
        return p;
      case Zero =>
        c := frames.NewPage(s);
        if c == -1 { return; }
        WordTable(mem, pagetable, tops, s, n, i, TakeTable(s, Child(n, i)));
        mem := PT.WithTable(mem, t, i, c);
        tab := tab[Child(n, i) := c];
        kern := kern + multiset{c};
    }

    /** walk with alloc; -1: no page for a table. */
    method Walk(pid: nat, vpn: nat) returns (t: int)
      requires Valid() && pid in pagetable && Node(pid, 2, 0) in tab && vpn < VPNS
      modifies this`mem, this`tab, this`kern, frames, frames.km
      ensures Valid() && (State(), t != -1) == CowFork.Walk(old(State()), pid, vpn)
      ensures t != -1 ==> OnPath(pid, 0, vpn) in tab && t == tab[OnPath(pid, 0, vpn)]
    {
      hide PagesOk, TabOk, CowFork.Down, CowFork.Walk;
      PathStep(pid, vpn);
      ghost var goal := CowFork.Walk(State(), pid, vpn);
      t := pagetable[pid];
      var level := 2;
      while level > 0
        invariant 0 <= level <= 2 && Valid() && WalkLeft(State(), pid, vpn, level, goal)
        invariant OnPath(pid, level, vpn) in tab && t == tab[OnPath(pid, level, vpn)]
      {
        ghost var s := State();
        t := Down(OnPath(pid, level, vpn), t, Px(level, vpn));
        WalkNext(s, pid, vpn, level, State(), t != -1, goal);
        if t == -1 { return; }
        level := level - 1;
      }
    }

    /** The parent's side of a round of uvmcopy: the walk finds the entry, which becomes
        read-only and copy-on-write, and its page is counted once more. */
    method MarkWord(p: nat, i: nat) returns (w: PT.Entry)
      requires Valid() && p in pagetable && i < VPNS && Key(p, i) in pte
      modifies this`mem, this`pte, frames.km
      ensures Valid() && State() == MarkAndCount(old(State()), Key(p, i))
      ensures i < USERTOP && w == WordOf(pte[Key(p, i)]) && pte[Key(p, i)].r
    {
      hide PagesOk, TabOk, Coupled, Spare, Adds;
      ghost var s, k := State(), Key(p, i);
      WordIs(mem, pagetable, tops, s, k);
      PageIs(s, k);
      MarkAndCountOk(s, k);
      SparePages(MarkAndCount(s, k), s.pte[k].ppn);
      var t := Find(p, i);
      w := mem[t][Px(0, i)];
      w := w.(perm := w.perm.(w := false, cow := true));
      pte := pte[k := pte[k].(w := false, cow := true)];
      frames.km.IncreaseNumRef(w.ppn);
      WordPut(mem, pagetable, tops, s, k, tops, State());
      SameTab(s, State());
      mem := PT.WithEntry(mem, t, Px(0, i), w);
    }

    /** mappages of one page, which finds the entry unused. */
    method MapWord(c: nat, i: nat, w: PT.Entry, ghost e: PTE) returns (ok: bool)
      requires Valid() && c in pagetable && Node(c, 2, 0) in tab && i < USERTOP
      requires w == WordOf(e) && e.r && Key(c, i) !in pte
      modifies this`mem, this`pte, this`tab, this`kern, frames, frames.km
      ensures frames.km.Valid() && TabOk(State()) && Coupled(mem, pagetable, tops, State())
      ensures var (s, done) := CowFork.Walk(old(State()), c, i);
              && s.pte == old(pte) && ok == done
              && State() == if ok then s.(pte := s.pte[Key(c, i) := e]) else s
    {
      hide PagesOk, TabOk, Coupled, CowFork.Walk, Supplied;
      var t := Walk(c, i);
      if t == -1 { return false; }
      ghost var s, k := State(), Key(c, i);
      WordIs(mem, pagetable, tops, s, k);
      assert mem[t][Px(0, i)] == PT.Zero;
      pte := pte[k := e];
      WordPut(mem, pagetable, tops, s, k, tops, State());
      SameTab(s, State());
      mem := PT.WithEntry(mem, t, Px(0, i), w);
      return true;
    }

    /** One round of uvmcopy. */
    method CopyPage(p: nat, c: nat, i: nat, ghost n: nat, ghost goal: (Sys, bool)) returns (ok: bool)
      requires Valid() && p in pagetable && c in pagetable && CopyLeft(State(), p, c, i, n, goal) && i < n
      modifies this`mem, this`pte, this`tab, this`kern, frames, frames.km
      ensures Valid()
      ensures !ok ==> HasPages(State(), c, 0, i) && goal == (Unmap(State(), c, 0, i), false)
      ensures ok ==> CopyLeft(State(), p, c, i + 1, n, goal)
    {
      hide PagesOk, TabOk, Coupled, CowFork.UvmCopy, CowFork.Walk, Unmap;
      ghost var s := State();
      var w := MarkWord(p, i);
      ok := MapWord(c, i, w, pte[Key(p, i)]);
      CopyNext(s, p, c, i, n, State(), ok, goal);
    }

    /** uvmcopy. */
    method UvmCopy(p: nat, c: nat, n: nat) returns (ok: bool)
      requires Valid() && p in pagetable && c in pagetable && CopyReady(State(), p, c, 0, n)
      modifies this`mem, this`pte, this`tab, this`kern, frames, frames.km
      ensures Valid() && (State(), ok) == CowFork.UvmCopy(old(State()), p, c, 0, n)
    {
      hide CowFork.UvmCopy, Unmap, PagesOk, TabOk, Coupled, HasPages, CopyReady;
      ghost var goal := CowFork.UvmCopy(State(), p, c, 0, n);
      var i := 0;
      while i < n
        invariant 0 <= i <= n && Valid() && CopyLeft(State(), p, c, i, n, goal)
      {
        ok := CopyPage(p, c, i, n, goal);
        if !ok {
          UvmUnmap(c, 0, i);
          return;
        }
        i := i + 1;
      }
      CopyDone(State(), p, c, n, goal);
      return true;
    }

    /** One round of uvmalloc. */
    method GrowPage(pid: nat, ghost lo: nat, v: nat, ghost hi: nat, w: bool, x: bool, ghost goal: (Sys, bool))
      returns (ok: bool)
      requires Valid() && pid in pagetable && GrowLeft(State(), pid, lo, v, hi, w, x, goal) && v < hi <= USERTOP
      modifies this`mem, this`pte, this`tab, this`kern, frames, frames.km
      ensures Valid()
      ensures !ok ==> HasPages(State(), pid, lo, v) && goal == (Unmap(State(), pid, lo, v), false)
      ensures ok ==> GrowLeft(State(), pid, lo, v + 1, hi, w, x, goal)
    {
      hide PagesOk, TabOk, Coupled, CowFork.UvmAlloc, CowFork.Walk, ZeroPage, Unmap;
      ghost var s := State();
      var p := frames.NewPage(s);
      ok := p != -1;
      if ok {
        GrowTaken(s, pid, v, s, false);
        FreeUnused(s);
        SameWords(mem, pagetable, tops, s, State());
        ok := MapWord(pid, v, PT.Entry(p, PT.Perm(true, w, x, true, false)), PTE(p, true, w, x, true, false));
        if !ok {
          ghost var s1 := State();
          GrowTaken(s, pid, v, s1, ok);
          frames.FreePage(p, s1);
          SameTab(s1, State());
          SameWords(mem, pagetable, tops, s1, State());
        }
      }
      GrowNext(s, pid, lo, v, hi, w, x, State(), ok, goal);
    }

    /** uvmalloc for pages lo..hi-1. */
    method UvmAlloc(pid: nat, lo: nat, hi: nat, w: bool, x: bool) returns (ok: bool)
      requires Valid() && pid in pagetable && lo <= hi <= USERTOP && GrowReady(State(), pid, lo, lo, hi)
      modifies this`mem, this`pte, this`tab, this`kern, frames, frames.km
      ensures Valid() && (State(), ok) == CowFork.UvmAlloc(old(State()), pid, lo, lo, hi, w, x)
    {
      hide CowFork.UvmAlloc, Unmap, PagesOk, TabOk, Coupled, HasPages, GrowReady;
      ghost var goal := CowFork.UvmAlloc(State(), pid, lo, lo, hi, w, x);
      var v := lo;
      while v < hi
        invariant lo <= v <= hi && Valid() && GrowLeft(State(), pid, lo, v, hi, w, x, goal)
      {
        ok := GrowPage(pid, lo, v, hi, w, x, goal);
        if !ok {
          UvmUnmap(pid, lo, v - lo);
          return;
        }
        v := v + 1;
      }
      GrowDone(State(), pid, lo, hi, w, x, goal);
      return true;
    }

    // ---- freewalk ----

    ghost predicate Trees()
      reads this, frames, frames.km
    {
      frames.km.Valid() && |mem| == |frames.km.ref| && PT.TreeOk(mem, tab, PT.NOWHERE)
    }

    /** freewalk on a table with no leaf below it; the pointer to the table is left to the caller. */
    method FreeWalk(ghost n: Node, p: nat)
      requires Trees() && Freeable(State(), n, 0) && tab[n] == p && PO.NoLeaves(mem, tab, n)
      modifies this`mem, this`tab, this`kern, frames, frames.km
      ensures frames.km.Valid() && |mem| == |frames.km.ref| == old(|mem|) && PT.TreeOk(mem, tab, n)
      ensures State() == FreeFrom(old(State()), n, 0) && PO.KeepsLeaves(old(mem), old(tab), mem, tab)
      decreases n.level
    {
      hide PagesOk, TabOk, Freeable, Freed, FreeFrom, PT.TreeOk, PO.NoLeaves, PO.KeepsLeaves;
      ghost var goal := FreeFrom(State(), n, 0);
      FreeableIs(State(), n, 0);
      PO.NoneChanged(mem, tab, []);
      for i := 0 to 512
        invariant Trees() && |mem| == old(|mem|) && Freeable(State(), n, i) && FreeFrom(State(), n, i) == goal
                  && n in tab && tab[n] == p
        invariant PO.KeepsLeaves(old(mem), old(tab), mem, tab) && PO.NoLeaves(mem, tab, n)
      {
        ghost var mem1, tab1 := mem, tab;
        FreeSlot(n, p, i, goal);
        PO.KeptTwice(old(mem), old(tab), mem1, tab1, mem, tab);
      }
      ghost var mem1, tab1 := mem, tab;
      FreeOne(n, p);
      PO.KeptTwice(old(mem), old(tab), mem1, tab1, mem, tab);
    }

    /** One round of freewalk. */
    method FreeSlot(ghost n: Node, p: nat, i: nat, ghost goal: Sys)
      requires Trees() && i < 512 && Freeable(State(), n, i) && FreeFrom(State(), n, i) == goal && tab[n] == p
      requires PO.NoLeaves(mem, tab, n)
      modifies this`mem, this`tab, this`kern, frames, frames.km
      ensures Trees() && Freeable(State(), n, i + 1) && FreeFrom(State(), n, i + 1) == goal
      ensures n in tab && tab[n] == p
      ensures |mem| == old(|mem|) && PO.KeepsLeaves(old(mem), old(tab), mem, tab) && PO.NoLeaves(mem, tab, n)
      decreases n.level, 0
    {
      hide PagesOk, TabOk, Freed, Freeable, FreeFrom, PO.NoLeaves, PO.KeepsLeaves;
      FreeableIs(State(), n, i);
      assert PT.NodeOk(mem, tab, n, PT.NOWHERE) && PT.SlotOk(mem, tab, n, i, PT.NOWHERE);
      var e := mem[p][i];
      if PT.IsDir(e) {
        ghost var s, c, mem1, tab1 := State(), Child(n, i), mem, tab;
        PO.NoLeavesChild(mem, tab, n, i);
        ChildFreeable(s, n, i);
        FreeWalk(c, e.ppn);
        FreeNext(s, n, i, State());
        FreeableIs(State(), n, i + 1);
        assert PT.NodeOk(mem, tab, n, c);
        PO.ClearSlotOk(mem, tab, n, i);
        PO.KeptTwice(mem1, tab1, mem, tab, PT.WithEntry(mem, p, i, PT.Zero), tab);
        mem := PT.WithEntry(mem, p, i, PT.Zero);
        PO.NoLeavesKept(mem1, tab1, n, mem, tab);
      } else if e.Entry? {
        LeafGone(mem, tab, n, i);
        assert false;  // panic("freewalk: leaf")
      } else {
        FreeNext(State(), n, i, State());
        PO.NoneChanged(mem, tab, []);
      }
    }

    /** kfree of a table that has none below it. */
    method FreeOne(ghost n: Node, p: nat)
      requires Trees() && Freeable(State(), n, 512) && tab[n] == p
      modifies this`mem, this`tab, this`kern, frames, frames.km
      ensures frames.km.Valid() && |mem| == |frames.km.ref| == old(|mem|) && PT.TreeOk(mem, tab, n)
      ensures State() == FreeFrom(old(State()), n, 512) && PO.KeepsLeaves(old(mem), old(tab), mem, tab)
    {
      hide PagesOk, TabOk, Freed, BelowFirst, PT.TreeOk, PO.KeepsLeaves;
      ghost var s := State();
      LastFreed(s, n, 512);
      TablePage(s, n);
      WordsFreed(mem, s, n);
      frames.FreePage(p, s);
      mem := mem[p := PO.Junk()];
      tab := tab - {n};
      kern := kern - multiset{p};
    }

    /** freewalk on the page table of a process without entries. */
    method FreeTree(pid: nat)
      requires Valid() && pid in pagetable && NoWords(pte, tops, pid)
      modifies this`mem, this`pagetable, this`tab, this`kern, frames, frames.km
      ensures Valid() && old(Node(pid, 2, 0) in tab) && State() == FreeTables(old(State()), pid)
      ensures pagetable == old(pagetable) - {pid}
    {
      hide PagesOk, TabOk, FreeFrom, Freeable, PO.NoLeaves, PO.KeepsLeaves;
      ghost var s, mem0 := State(), mem;
      TreeFreeable(s, pid);
      FreeTablesOk(s, pid);
      NothingLeft(mem, pagetable, tops, s, pid);
      FreeWalk(Node(pid, 2, 0), pagetable[pid]);
      WordsGone(mem0, pagetable, tops, s, pid, mem, State());
      pagetable := pagetable - {pid};
    }

    /** uvmfree of a process whose pages are 0..npages-1. */
    method UvmFree(pid: nat, npages: nat)
      requires Valid() && pid in pagetable && Node(pid, 2, 0) in tab
      requires HasPages(State(), pid, 0, npages) && NoPages(State(), pid, npages)
      requires Key(pid, TOP) !in tops && Key(pid, USERTOP) !in tops
      modifies this`mem, this`pagetable, this`pte, this`tab, this`kern, frames, frames.km
      ensures old(Unmap(State(), pid, 0, npages)).tab == old(tab)
      ensures PagesOk(old(Unmap(State(), pid, 0, npages))) && TabOk(old(Unmap(State(), pid, 0, npages)))
      ensures Valid() && State() == FreeTables(old(Unmap(State(), pid, 0, npages)), pid)
      ensures pagetable == old(pagetable) - {pid}
    {
      hide PagesOk, TabOk, Coupled, Unmap, FreeTables;
      UnmapTab(State(), pid, 0, npages);
      AllUnmapped(mem, pagetable, tops, State(), pid, npages);
      if npages > 0 {
        UvmUnmap(pid, 0, npages);
      } else {
        UnmapLess(State(), pid);
      }
      FreeTree(pid);
    }

    // ---- fork ----

    /** The store of mappages for the trampoline or the trapframe, which finds the entry unused. */
    method SetTop(ghost k: Key, t: nat, i: nat, w: PT.Entry, ghost e: PTE)
      requires Valid() && OnPath(k.pid, 0, k.vpn) in tab && t == tab[OnPath(k.pid, 0, k.vpn)] && i == Px(0, k.vpn)
      requires USERTOP <= k.vpn < VPNS && k !in tops && w == WordOf(e) && e.r && !e.u
      modifies this`mem, this`tops
      ensures Valid() && tops == old(tops)[k := e]
    {
      hide PagesOk, TabOk, Coupled;
      WordIs(mem, pagetable, tops, State(), k);
      assert mem[t][i] == PT.Zero;
      WordPut(mem, pagetable, tops, State(), k, tops[k := e], State());
      mem := PT.WithEntry(mem, t, i, w);
      tops := tops[k := e];
    }

    /** uvmunmap of the trampoline or the trapframe, without do_free. */
    method ClearTop(pid: nat, v: nat)
      requires Valid() && pid in pagetable && Key(pid, v) in tops
      modifies this`mem, this`tops
      ensures Valid() && tops == old(tops) - {Key(pid, v)}
    {
      hide PagesOk, TabOk, Coupled;
      ghost var k := Key(pid, v);
      WordIs(mem, pagetable, tops, State(), k);
      var t := Find(pid, v);
      assert mem[t][Px(0, v)].Entry?;
      WordPut(mem, pagetable, tops, State(), k, tops - {k}, State());
      mem := PT.WithEntry(mem, t, Px(0, v), PT.Zero);
      tops := tops - {k};
    }

    /** The stores of proc_pagetable: the tables for the trapframe are those for the trampoline,
        in page `t`. */
    method MapTops(c: nat, t: nat, trampoline: nat, trapframe: nat)
      requires Valid() && c in pagetable && Node(c, 2, 0) in tab && OnPath(c, 0, TOP) in tab
      requires t == tab[OnPath(c, 0, TOP)] && Key(c, TOP) !in tops && Key(c, USERTOP) !in tops
      modifies this`mem, this`tops, this`tab, this`kern, frames, frames.km
      ensures Valid() && State() == old(State()) && tops == WithTops(old(tops), c, trampoline, trapframe)
    {
      hide PagesOk, TabOk, Coupled, CowFork.Walk;
      SetTop(Key(c, TOP), t, Px(0, TOP), PT.Entry(trampoline, PT.Perm(true, false, true, false, false)),
             PTE(trampoline, true, false, true, false, false));
      WalkAgain(State(), c);
      var t1 := Walk(c, USERTOP);
      SetTop(Key(c, USERTOP), t1, Px(0, USERTOP), PT.Entry(trapframe, PT.Perm(true, true, false, false, false)),
             PTE(trapframe, true, true, false, false, false));
    }

    /** proc_pagetable, for the process `c` whose trapframe is in page `trapframe`. */
    method NewTables(c: nat, trampoline: nat, trapframe: nat) returns (ok: bool)
      requires Valid() && forall n :: n in tab ==> n.root != c
      modifies this`mem, this`pagetable, this`tops, this`tab, this`kern, frames, frames.km
      ensures Valid() && (State(), ok) == CowSystem.NewTables(old(State()), c)
      ensures ok ==> c in pagetable && tops == WithTops(old(tops), c, trampoline, trapframe)
      ensures pagetable - {c} == old(pagetable) && (!ok ==> c !in pagetable && tops == old(tops))
    {
      hide PagesOk, TabOk, Coupled, CowFork.Walk, FreeTables, TakeTable, Adds, Supplied, TablesOf, Contents, Path,
        WithTops;
      ghost var s := State();
      NobodyHas(mem, pagetable, tops, s, c);
      var root := UvmCreate(c);
      if root == -1 { return false; }
      NewRoot(s, c);
      NewTree(s, State(), c);
      var t := Walk(c, TOP);
      if t == -1 {
        FreeTree(c);
        return false;
      }
      MapTops(c, t, trampoline, trapframe);
      return true;
    }

    /** proc_freepagetable. */
    method FreePagetable(pid: nat, npages: nat)
      requires Valid() && pid in pagetable && Node(pid, 2, 0) in tab
      requires HasPages(State(), pid, 0, npages) && NoPages(State(), pid, npages)
      requires Key(pid, TOP) in tops && Key(pid, USERTOP) in tops
      modifies this`mem, this`pagetable, this`pte, this`tops, this`tab, this`kern, frames, frames.km
      ensures old(Unmap(State(), pid, 0, npages)).tab == old(tab)
      ensures PagesOk(old(Unmap(State(), pid, 0, npages))) && TabOk(old(Unmap(State(), pid, 0, npages)))
      ensures Valid() && State() == FreeTables(old(Unmap(State(), pid, 0, npages)), pid)
      ensures pagetable == old(pagetable) - {pid} && tops == old(tops) - {Key(pid, TOP), Key(pid, USERTOP)}
    {
      hide PagesOk, TabOk, Coupled, Unmap, FreeTables, HasPages, NoPages;
      ClearTop(pid, TOP);
      ClearTop(pid, USERTOP);
      UvmFree(pid, npages);
    }

    /** fork, as far as memory is concerned. */
    method Fork(p: nat, c: nat, n: nat, trampoline: nat, trapframe: nat) returns (ok: bool)
      requires Valid() && p in pagetable && ForkReady(State(), p, c, n)
      modifies this`mem, this`pagetable, this`pte, this`tops, this`tab, this`kern, frames, frames.km
      ensures Valid() && (State(), ok) == ForkSpace(old(State()), p, c, n)
    {
      hide PagesOk, TabOk, Coupled, CowSystem.NewTables, CowFork.UvmCopy, FreeTables, Adds, Supplied, TablesOf;
      hide Contents;
      NewTablesOk(State(), c);
      ok := NewTables(c, trampoline, trapframe);
      if !ok { return; }
      ghost var s := State();
      ok := UvmCopy(p, c, n);
      if !ok {
        CopyUndone(s, p, c, n);
        FreePagetable(c, 0);
      }
    }

    /** One round of copyout. */
    method CopyOutPage(pid: nat, va: nat, src: seq<int>, i: nat) returns (ok: bool)
      requires Valid() && pid in pagetable && i < |src|
      modifies this`mem, this`pte, frames, frames.km
      ensures frames.km.Valid() && TabOk(State()) && Coupled(mem, pagetable, tops, State())
      ensures (State(), ok) == CopyOutRound(old(State()), pid, va, src, i)
    {
      hide CowFork.CowFault, PagesOk, TabOk, Coupled, CopyOutRound, Overlay;
      CopyOutRoundIs(State(), pid, va, src, i);
      var va0 := va - Off(va);
      if va0 > MAXVA { return false; }
      FaultFinds(State(), pid, va0);
      var r := CowFault(pid, va0);
      if r < 0 { return false; }
      var pa := WalkAddr(pid, va0);
      ghost var s := State();
      frames.page := frames.page[pa := Overlay(frames.page[pa], Off(va), src, i, ChunkLen(va, |src| - i))];
      SameTab(s, State());
      SameWords(mem, pagetable, tops, s, State());
      return true;
    }

    /** copyout; `j` bytes have been stored. */
    method CopyOut(pid: nat, dstva: nat, src: seq<int>) returns (ok: bool, ghost j: nat)
      requires Valid() && pid in pagetable
      modifies this`mem, this`pte, frames, frames.km
      ensures Valid() && (State(), j) == CowSystem.CopyOut(old(State()), pid, dstva, src, 0)
      ensures ok <==> j == |src|
    {
      hide CowSystem.CopyOut, CopyOutRound, PagesOk, TabOk, Coupled;
      ghost var s, goal := State(), CowSystem.CopyOut(State(), pid, dstva, src, 0);
      var va, i := dstva, 0;
      while i < |src|
        invariant 0 <= i <= |src| && Valid() && State() == s && OutLeft(s, pid, va, src, i, goal)
      {
        ok := CopyOutPage(pid, va, src, i);
        OutNext(s, pid, va, src, i, State(), ok, goal);
        s := State();
        if !ok { return false, i; }
        i, va := i + ChunkLen(va, |src| - i), NextPage(va);
      }
      OutDone(s, pid, va, src, goal);
      return true, i;
    }

    /** copyin; None for -1. */
    method CopyIn(pid: nat, srcva: nat, len: nat) returns (r: Option<seq<int>>)
      requires Valid() && pid in pagetable
      ensures r == CowSystem.CopyIn(State(), pid, srcva, len)
    {
      ghost var s, goal := State(), CowSystem.CopyIn(State(), pid, srcva, len);
      assert InLeft(s, pid, srcva, len, [], goal) by {
        assert goal.Some? ==> [] + goal.value == goal.value;
      }
      hide CowSystem.CopyIn, PagesOk, InLeft;
      var dst, n := [], len;
      var va: nat := srcva;
      while n > 0
        invariant 0 <= n && State() == s && PagesOk(s) && InLeft(s, pid, va, n, dst, goal)
      {
        InNext(s, pid, va, n, dst, goal);
        PageStart(va);
        var va0 := va - Off(va);
        var pa := WalkAddr(pid, va0);
        if pa == -1 { return None; }
        var m, c := ChunkLen(va, n), frames.page[pa];
        dst, n, va := dst + c[Off(va)..Off(va) + m], n - m, va0 + 4096;
      }
      InNext(s, pid, va, n, dst, goal);
      return Some(dst);
    }
  }

  lemma {:induction false} UnmapLess(s: Sys, pid: nat)
    requires PagesOk(s)
    ensures Unmap(s, pid, 0, 0) == s
  {
  }

  /** With its pages unmapped, the process has no entries left. */
  lemma {:induction false} AllUnmapped(mem: PT.Memory, pagetable: map<nat, nat>, tops: map<Key, PTE>, s: Sys,
                                       pid: nat, npages: nat)
    requires Coupled(mem, pagetable, tops, s) && PagesOk(s) && HasPages(s, pid, 0, npages) && NoPages(s, pid, npages)
    requires Key(pid, TOP) !in tops && Key(pid, USERTOP) !in tops
    ensures NoWords(Unmap(s, pid, 0, npages).pte, tops, pid)
  {
    hide PagesOk, PT.TreeOk;
    UnmapShows(s, pid, 0, npages);
    RemovedAt(s.pte, pid, 0, npages);
    forall v: nat ensures Key(pid, v) !in tops && Key(pid, v) !in RemoveRange(s.pte, pid, 0, npages) {
      WordIs(mem, pagetable, tops, s, Key(pid, v));
    }
  }

  /** A process without tables has no entries. */
  lemma {:induction false} NobodyHas(mem: PT.Memory, pagetable: map<nat, nat>, tops: map<Key, PTE>, s: Sys, c: nat)
    requires Coupled(mem, pagetable, tops, s) && forall n :: n in s.tab ==> n.root != c
    ensures NoWords(s.pte, tops, c) && c !in pagetable
  {
    forall v: nat ensures Key(c, v) !in s.pte && Key(c, v) !in tops {
      WordIs(mem, pagetable, tops, s, Key(c, v));
    }
  }

  /** The trapframe has the tables of the trampoline. */
  lemma {:induction false} WalkAgain(s: Sys, c: nat)
    requires PagesOk(s) && TabOk(s) && Node(c, 2, 0) in s.tab && OnPath(c, 0, TOP) in s.tab
    ensures CowFork.Walk(s, c, USERTOP) == (s, true)
  {
    PathStep(c, TOP);
    assert OnPath(c, 1, USERTOP) == OnPath(c, 1, TOP) && OnPath(c, 0, USERTOP) == OnPath(c, 0, TOP);
  }

  /** A failed uvmcopy leaves the child without pages. */
  lemma {:induction false} CopyUndone(s: Sys, p: nat, c: nat, n: nat)
    requires CopyReady(s, p, c, 0, n)
    ensures var (r, ok) := CowFork.UvmCopy(s, p, c, 0, n);
            !ok ==> HasPages(r, c, 0, 0) && NoPages(r, c, 0) && Unmap(r, c, 0, 0) == r
  {
    hide PagesOk, TabOk, CowFork.UvmCopy;
    UvmCopyShows(s, p, c, 0, n);
    var (r, ok) := CowFork.UvmCopy(s, p, c, 0, n);
    Sees(s);
    Sees(r);
    if !ok { assert Contents(r).Keys == Contents(s).Keys; }
  }
}
