/** copyout, copyin, and whole runs of the memory system against the system with eager copies. */
module CowSystem {
  import opened Counting
  import opened CowModel
  import opened CowFork
  import opened TableTree
  import opened Types

  // ---- Bytes by address ----

  /** Bytes i..j-1 of `src` have been stored from address `va` on in the memory of `pid`, and
      nothing else has changed. */
  ghost predicate Written(m: map<Key, Content>, m': map<Key, Content>, pid: nat, va: nat, src: seq<int>, i: nat,
                          j: nat) {
    && i <= j <= |src| && m'.Keys == m.Keys
    && (forall k :: k in m ==> |m'[k]| == |m[k]|)
    && (forall k :: k in m && k.pid != pid ==> m'[k] == m[k])
    && (forall k, x :: k in m && k.pid == pid && 0 <= x < |m[k]| ==>
          m'[k][x] == if va <= k.vpn * 4096 + x < va + (j - i) then src[i + (k.vpn * 4096 + x - va)] else m[k][x])
  }

  // ---- copyout ----

  /** memmove of bytes i..i+n-1 of `src` to offset `off` of a page. */
  function Overlay(c: Content, off: nat, src: seq<int>, i: nat, n: nat): (r: Content)
    requires off + n <= |c| && i + n <= |src|
    ensures |r| == |c|
  {
    seq(|c|, x requires 0 <= x < |c| => if off <= x < off + n then src[i + (x - off)] else c[x])
  }

  function ChunkLen(va: nat, left: nat): (n: nat)
    requires left > 0
    ensures 0 < n <= left && Off(va) + n <= PGSIZE
    ensures n == left || Off(va) + n == PGSIZE
  {
    if 4096 - Off(va) > left then left else 4096 - Off(va)
  }

  lemma {:induction false} AddrSplit(va: nat)
    ensures Vpn(va) * 4096 + Off(va) == va
  {
  }

  lemma {:induction false} PageStart(va: nat)
    ensures Vpn(va - Off(va)) == Vpn(va) && Off(va - Off(va)) == 0 && Off(va) <= va
    ensures Vpn(NextPage(va)) == Vpn(va) + 1 && Off(NextPage(va)) == 0
  {
  }

  function WriteChunk(s: Sys, k: Key, off: nat, src: seq<int>, i: nat, n: nat): (r: Sys)
    requires PagesOk(s) && k in s.pte && off + n <= PGSIZE && i + n <= |src|
  {
    var p := s.pte[k].ppn;
    s.(page := s.page[p := Overlay(s.page[p], off, src, i, n)])
  }

  lemma {:induction false} WriteChunkOk(s: Sys, k: Key, off: nat, src: seq<int>, i: nat, n: nat)
    requires PagesOk(s) && k in s.pte && off + n <= PGSIZE && i + n <= |src| && !s.pte[k].cow
    ensures var s' := WriteChunk(s, k, off, src, i, n);
            && Keeps(s, s') && s'.pte == s.pte && |Contents(s)[k]| == PGSIZE
            && Contents(s') == Contents(s)[k := Overlay(Contents(s)[k], off, src, i, n)]
  {
    WriteOk(s, k, Overlay(Contents(s)[k], off, src, i, n));
  }

  /** One chunk. */
  lemma {:induction false} ChunkWritten(m: map<Key, Content>, pid: nat, va: nat, src: seq<int>, i: nat, n: nat)
    requires Key(pid, Vpn(va)) in m && |m[Key(pid, Vpn(va))]| == PGSIZE && Off(va) + n <= PGSIZE && i + n <= |src|
    requires forall k :: k in m ==> |m[k]| == PGSIZE
    ensures var k := Key(pid, Vpn(va));
            Written(m, m[k := Overlay(m[k], Off(va), src, i, n)], pid, va, src, i, i + n)
  {
    AddrSplit(va);
  }

  lemma {:induction false} WrittenTrans(m0: map<Key, Content>, m1: map<Key, Content>, m2: map<Key, Content>, pid: nat,
                                        va: nat, src: seq<int>, i: nat, n: nat, j: nat)
    requires Written(m0, m1, pid, va, src, i, i + n) && Written(m1, m2, pid, va + n, src, i + n, j)
    ensures Written(m0, m2, pid, va, src, i, j)
  {
  }

  /** walkaddr: the page behind a user address. */
  ghost predicate UserPage(s: Sys, pid: nat, va: nat) {
    va < MAXVA && Key(pid, Vpn(va)) in s.pte && s.pte[Key(pid, Vpn(va))].u
  }

  /** The user pages are the same. */
  ghost predicate KeepsUser(s: Sys, s': Sys) {
    s'.pte.Keys == s.pte.Keys && forall k :: k in s.pte ==> s'.pte[k].u == s.pte[k].u
  }

  /** The address copyout goes on with. */
  function NextPage(va: nat): nat {
    va - Off(va) + 4096
  }

  /** One round of copyout: bytes i.. of `src` to the rest of the page of `va`. */
  function CopyOutRound(s: Sys, pid: nat, va: nat, src: seq<int>, i: nat): (r: (Sys, bool))
    requires PagesOk(s) && i < |src|
  {
    var va0 := va - Off(va);
    if va0 > MAXVA then (s, false)
    else
      CowFaultOk(s, pid, va0);
      var (s1, f) := CowFault(s, pid, va0);
      if f < 0 then (s1, false)
      else
        // walkaddr finds the entry that cowfault has just found
        (WriteChunk(s1, Key(pid, Vpn(va0)), Off(va), src, i, ChunkLen(va, |src| - i)), true)
  }

  /** A round, in terms of the state after cowfault. */
  lemma {:induction false} CopyOutRoundIs(s: Sys, pid: nat, va: nat, src: seq<int>, i: nat)
    requires PagesOk(s) && i < |src|
    ensures va - Off(va) > MAXVA ==> CopyOutRound(s, pid, va, src, i) == (s, false)
    ensures va - Off(va) <= MAXVA ==>
            var (s1, f), k := CowFault(s, pid, va - Off(va)), Key(pid, Vpn(va - Off(va)));
            && PagesOk(s1) && (f < 0 ==> CopyOutRound(s, pid, va, src, i) == (s1, false))
            && (f >= 0 ==>
                  && k in s1.pte && s1.pte[k].ppn < |s1.page| && |s1.page[s1.pte[k].ppn]| == PGSIZE
                  && var pa := s1.pte[k].ppn;
                     CopyOutRound(s, pid, va, src, i) ==
                       (s1.(page := s1.page[pa := Overlay(s1.page[pa], Off(va), src, i, ChunkLen(va, |src| - i))]),
                         true))
  {
    hide CowFault, PagesOk, Adds, Contents, Overlay;
    CowFaultOk(s, pid, va - Off(va));
    Sees(CowFault(s, pid, va - Off(va)).0);
  }

  lemma {:induction false} CopyOutRoundOk(s: Sys, pid: nat, va: nat, src: seq<int>, i: nat)
    requires PagesOk(s) && i < |src|
    ensures var (s', ok) := CopyOutRound(s, pid, va, src, i);
            Keeps(s, s') && KeepsUser(s, s') && (ok ==> UserPage(s', pid, va))
  {
    PageStart(va);
    UserSame(s, pid, va);
    hide PagesOk, Adds, CowFault, Off, Vpn, WriteChunk, UserPage;
    var va0 := va - Off(va);
    NothingAdded(s);
    if va0 <= MAXVA {
      FaultKeepsUser(s, pid, va0);
      var (s1, f) := CowFault(s, pid, va0);
      UserSame(s1, pid, va);
      if f >= 0 {
        UserSame(WriteChunk(s1, Key(pid, Vpn(va)), Off(va), src, i, ChunkLen(va, |src| - i)), pid, va);
        UserWritten(s1, pid, va, src, i);
        WriteKeeps(s, s1, Key(pid, Vpn(va)), Off(va), src, i, ChunkLen(va, |src| - i));
      }
    }
  }

  lemma {:induction false} UserSame(s: Sys, pid: nat, va: nat)
    ensures Off(va) <= va && (UserPage(s, pid, va) <==> UserPage(s, pid, va - Off(va)))
  {
  }

  lemma {:induction false} UserWritten(s: Sys, pid: nat, va: nat, src: seq<int>, i: nat)
    requires PagesOk(s) && UserPage(s, pid, va) && i < |src|
    ensures UserPage(WriteChunk(s, Key(pid, Vpn(va)), Off(va), src, i, ChunkLen(va, |src| - i)), pid, va)
  {
  }

  lemma {:induction false} FaultKeepsUser(s: Sys, pid: nat, va: nat)
    requires PagesOk(s)
    ensures var (s', r) := CowFault(s, pid, va);
            && Keeps(s, s') && KeepsUser(s, s')
            && (r >= 0 ==> UserPage(s', pid, va) && !s'.pte[Key(pid, Vpn(va))].cow)
  {
    CowFaultOk(s, pid, va);
  }

  lemma {:induction false} WriteKeeps(s: Sys, s1: Sys, k: Key, off: nat, src: seq<int>, i: nat, n: nat)
    requires Keeps(s, s1) && KeepsUser(s, s1) && k in s1.pte && !s1.pte[k].cow && off + n <= PGSIZE && i + n <= |src|
    ensures var s' := WriteChunk(s1, k, off, src, i, n); Keeps(s, s') && KeepsUser(s, s') && s'.pte == s1.pte
  {
    WriteChunkOk(s1, k, off, src, i, n);
  }

  lemma {:induction false} ChunkShows(s: Sys, pid: nat, va: nat, src: seq<int>, i: nat, n: nat)
    requires PagesOk(s) && Key(pid, Vpn(va)) in s.pte && !s.pte[Key(pid, Vpn(va))].cow
    requires Off(va) + n <= PGSIZE && i + n <= |src|
    ensures var s' := WriteChunk(s, Key(pid, Vpn(va)), Off(va), src, i, n);
            PagesOk(s') && Written(Contents(s), Contents(s'), pid, va, src, i, i + n)
  {
    WriteChunkOk(s, Key(pid, Vpn(va)), Off(va), src, i, n);
    ChunkWritten(Contents(s), pid, va, src, i, n);
  }

  /** A round fails and shows nothing, or stores a chunk after a fault that shows nothing. */
  lemma {:induction false} CopyOutRoundStores(s: Sys, pid: nat, va: nat, src: seq<int>, i: nat)
    requires PagesOk(s) && i < |src|
    ensures var (s', ok), k, n := CopyOutRound(s, pid, va, src, i), Key(pid, Vpn(va)), ChunkLen(va, |src| - i);
            && PagesOk(s') && (!ok ==> Contents(s') == Contents(s))
            && (ok ==> exists s1 :: StoresChunk(s, s1, s', k, Off(va), src, i, n))
  {
    PageStart(va);
    hide CowFault, PagesOk, Adds, Contents, WriteChunk, Off, Vpn, UserPage;
    var va0 := va - Off(va);
    CopyOutRoundOk(s, pid, va, src, i);
    Sees(s);
    if va0 <= MAXVA {
      CowFaultOk(s, pid, va0);
      var (s1, f) := CowFault(s, pid, va0);
      Sees(s1);
      assert f >= 0 ==> StoresChunk(s, s1, CopyOutRound(s, pid, va, src, i).0, Key(pid, Vpn(va)), Off(va), src, i,
                                    ChunkLen(va, |src| - i));
    }
  }

  ghost predicate StoresChunk(s: Sys, s1: Sys, s': Sys, k: Key, off: nat, src: seq<int>, i: nat, n: nat) {
    && PagesOk(s) && PagesOk(s1) && Contents(s1) == Contents(s) && k in s1.pte && !s1.pte[k].cow
    && off + n <= PGSIZE && i + n <= |src| && s' == WriteChunk(s1, k, off, src, i, n)
  }

  lemma {:induction false} CopyOutRoundShows(s: Sys, pid: nat, va: nat, src: seq<int>, i: nat)
    requires PagesOk(s) && i < |src|
    ensures var (s', ok) := CopyOutRound(s, pid, va, src, i);
            && PagesOk(s')
            && Written(Contents(s), Contents(s'), pid, va, src, i, if ok then i + ChunkLen(va, |src| - i) else i)
  {
    hide CopyOutRound, PagesOk, Contents, Written, WriteChunk, Off, Vpn, ChunkLen;
    CopyOutRoundStores(s, pid, va, src, i);
    Sees(s);
    var (s', ok) := CopyOutRound(s, pid, va, src, i);
    Sees(s');
    WrittenNone(Contents(s), pid, va, src, i);
    if ok {
      var n := ChunkLen(va, |src| - i);
      var s1 :| StoresChunk(s, s1, s', Key(pid, Vpn(va)), Off(va), src, i, n);
      ChunkShows(s1, pid, va, src, i, n);
    }
  }

  /** copyin: bytes from `va` on, or None for -1. */
  ghost function CopyIn(s: Sys, pid: nat, va: nat, len: nat): (r: Option<seq<int>>)
    requires PagesOk(s)
    decreases len
  {
    if len == 0 then Some([])
    else
      if !UserPage(s, pid, va) then None
      else
        var n, c := ChunkLen(va, len), s.page[s.pte[Key(pid, Vpn(va))].ppn];
        match CopyIn(s, pid, NextPage(va), len - n)
        case None => None
        case Some(rest) => Some(c[Off(va)..Off(va) + n] + rest)
  }

  /** `goal` is what copyin returns, with `dst` fetched and `len` bytes from `va` to fetch. */
  ghost predicate InLeft(s: Sys, pid: nat, va: nat, len: nat, dst: seq<int>, goal: Option<seq<int>>) {
    && PagesOk(s)
    && goal == match CopyIn(s, pid, va, len) case None => None case Some(rest) => Some(dst + rest)
  }

  lemma {:induction false} InNext(s: Sys, pid: nat, va: nat, len: nat, dst: seq<int>, goal: Option<seq<int>>)
    requires InLeft(s, pid, va, len, dst, goal)
    ensures len == 0 ==> goal == Some(dst)
    ensures len > 0 && !UserPage(s, pid, va) ==> goal == None
    ensures len > 0 && UserPage(s, pid, va) ==>
              var n, c := ChunkLen(va, len), s.page[s.pte[Key(pid, Vpn(va))].ppn];
              Off(va) + n <= |c| && InLeft(s, pid, NextPage(va), len - n, dst + c[Off(va)..Off(va) + n], goal)
  {
    if len == 0 {
      assert dst + [] == dst;
    } else if UserPage(s, pid, va) {
      var n, c := ChunkLen(va, len), s.page[s.pte[Key(pid, Vpn(va))].ppn];
      var rest := CopyIn(s, pid, NextPage(va), len - n);
      assert rest.Some? ==> dst + (c[Off(va)..Off(va) + n] + rest.value) == dst + c[Off(va)..Off(va) + n] + rest.value;
    }
  }

  /** copyout of bytes i.. of `src` to `va`; the result says how far it got. */
  function CopyOut(s: Sys, pid: nat, va: nat, src: seq<int>, i: nat): (r: (Sys, nat))
    requires PagesOk(s) && i <= |src|
    ensures Keeps(s, r.0) && KeepsUser(s, r.0) && i <= r.1 <= |src|
    decreases |src| - i
  {
    NothingAdded(s);
    if i == |src| then (s, i)
    else
      CopyOutRoundOk(s, pid, va, src, i);
      var (s1, ok) := CopyOutRound(s, pid, va, src, i);
      if ok then
        var r := CopyOut(s1, pid, NextPage(va), src, i + ChunkLen(va, |src| - i));
        AddsBoth(s, s1, r.0, -1);
        r
      else (s1, i)
  }

  /** A first part of the bytes is stored in the memory of the process, and nothing else that
      any process sees changes. */
  lemma {:induction false} CopyOutShows(s: Sys, pid: nat, va: nat, src: seq<int>, i: nat)
    requires PagesOk(s) && i <= |src|
    ensures var (s', j) := CopyOut(s, pid, va, src, i);
            (forall k :: k in s.pte ==> s.pte[k].ppn < |s.page|)
              && Written(Contents(s), Contents(s'), pid, va, src, i, j)
    decreases |src| - i
  {
    hide PagesOk, Adds, CopyOut, CopyOutRound, Written, Contents, KeepsUser, Off, Vpn, NextPage, ChunkLen;
    Sees(s);
    CopyOutNext(s, pid, va, src, i);
    if i < |src| {
      CopyOutRoundShows(s, pid, va, src, i);
      var (s1, ok) := CopyOutRound(s, pid, va, src, i);
      Sees(s1);
      if ok {
        var n := ChunkLen(va, |src| - i);
        CopyOutShows(s1, pid, NextPage(va), src, i + n);
        var (s2, j) := CopyOut(s1, pid, NextPage(va), src, i + n);
        NextChunk(va, |src| - i);
        Sees(s2);
        WrittenOn(Contents(s), Contents(s1), Contents(s2), pid, va, src, i, n, NextPage(va), j);
      }
    } else {
      WrittenNone(Contents(s), pid, va, src, i);
    }
  }

  lemma {:induction false} CopyOutNext(s: Sys, pid: nat, va: nat, src: seq<int>, i: nat)
    requires PagesOk(s) && i <= |src|
    ensures i == |src| ==> CopyOut(s, pid, va, src, i) == (s, i)
    ensures i < |src| ==>
              var (s1, ok) := CopyOutRound(s, pid, va, src, i);
              && PagesOk(s1)
              && CopyOut(s, pid, va, src, i) ==
                   if ok then CopyOut(s1, pid, NextPage(va), src, i + ChunkLen(va, |src| - i)) else (s1, i)
  {
    if i < |src| { CopyOutRoundOk(s, pid, va, src, i); }
  }

  lemma {:induction false} WrittenNone(m: map<Key, Content>, pid: nat, va: nat, src: seq<int>, i: nat)
    requires i <= |src|
    ensures Written(m, m, pid, va, src, i, i)
  {
  }

  lemma {:induction false} NextChunk(va: nat, left: nat)
    requires left > 0
    ensures NextPage(va) == va + ChunkLen(va, left) || ChunkLen(va, left) == left
  {
  }

  /** Storing bytes i.. of `src` at `va` is left to do, to reach `goal`. */
  ghost predicate OutLeft(s: Sys, pid: nat, va: nat, src: seq<int>, i: nat, goal: (Sys, nat)) {
    PagesOk(s) && i <= |src| && CopyOut(s, pid, va, src, i) == goal
  }

  lemma {:induction false} OutNext(s: Sys, pid: nat, va: nat, src: seq<int>, i: nat, s': Sys, ok: bool,
                                   goal: (Sys, nat))
    requires OutLeft(s, pid, va, src, i, goal) && i < |src| && (s', ok) == CopyOutRound(s, pid, va, src, i)
    ensures PagesOk(s')
    ensures ok ==> OutLeft(s', pid, NextPage(va), src, i + ChunkLen(va, |src| - i), goal)
    ensures !ok ==> goal == (s', i)
  {
    CopyOutRoundOk(s, pid, va, src, i);
  }

  lemma {:induction false} OutDone(s: Sys, pid: nat, va: nat, src: seq<int>, goal: (Sys, nat))
    requires OutLeft(s, pid, va, src, |src|, goal)
    ensures PagesOk(s) && goal == (s, |src|)
  {
  }

  lemma {:induction false} WrittenOn(m0: map<Key, Content>, m1: map<Key, Content>, m2: map<Key, Content>, pid: nat,
                                     va: nat, src: seq<int>, i: nat, n: nat, va': nat, j: nat)
    requires Written(m0, m1, pid, va, src, i, i + n) && Written(m1, m2, pid, va', src, i + n, j)
    requires va' == va + n || i + n == |src|
    ensures Written(m0, m2, pid, va, src, i, j)
  {
    if va' == va + n {
      WrittenTrans(m0, m1, m2, pid, va, src, i, n, j);
    } else {
      assert Written(m1, m2, pid, va + n, src, i + n, j);
      WrittenTrans(m0, m1, m2, pid, va, src, i, n, j);
    }
  }

  // ---- When copyout and copyin succeed ----

  /** One past the last page of the `len` bytes from `va` on. */
  function PastLast(va: nat, len: nat): nat {
    if len == 0 then Vpn(va) else Vpn(va + len - 1) + 1
  }

  lemma {:induction false} RangeNext(va: nat, left: nat)
    requires left > 0
    ensures Vpn(NextPage(va)) == Vpn(va) + 1 && Vpn(va) < PastLast(va, left)
    ensures PastLast(NextPage(va), left - ChunkLen(va, left)) == PastLast(va, left)
  {
  }

  /** Page `v` is a user page of the process. */
  ghost predicate UserAt(s: Sys, pid: nat, v: nat) {
    v < VPNS && Key(pid, v) in s.pte && s.pte[Key(pid, v)].u
  }

  /** Pages lo..hi-1 are. */
  ghost predicate UserRange(s: Sys, pid: nat, lo: nat, hi: nat) {
    forall v: nat :: lo <= v < hi ==> UserAt(s, pid, v)
  }

  lemma {:induction false} UserSplit(s: Sys, pid: nat, lo: nat, hi: nat)
    ensures lo >= hi ==> UserRange(s, pid, lo, hi)
    ensures lo < hi ==> (UserRange(s, pid, lo, hi) <==> UserAt(s, pid, lo) && UserRange(s, pid, lo + 1, hi))
  {
  }

  lemma {:induction false} UserPageIs(s: Sys, pid: nat, va: nat)
    ensures UserPage(s, pid, va) <==> UserAt(s, pid, Vpn(va))
    ensures va - Off(va) > MAXVA ==> Vpn(va) >= VPNS
    ensures va - Off(va) >= 0 && Vpn(va - Off(va)) == Vpn(va)
    ensures (va - Off(va) == 0 <==> Vpn(va) == 0) && (va - Off(va) >= MAXVA <==> Vpn(va) >= VPNS)
  {
  }

  /** copyin succeeds if and only if every page of the range is a user page. */
  lemma {:induction false} CopyInIff(s: Sys, pid: nat, va: nat, len: nat)
    requires PagesOk(s)
    ensures CopyIn(s, pid, va, len).Some? <==> UserRange(s, pid, Vpn(va), PastLast(va, len))
    decreases len
  {
    hide PagesOk, Off, Vpn, NextPage, ChunkLen, UserPage, UserRange;
    UserSplit(s, pid, Vpn(va), Vpn(va));
    if len > 0 {
      RangeNext(va, len);
      UserPageIs(s, pid, va);
      hide PastLast;
      UserSplit(s, pid, Vpn(va), PastLast(va, len));
      CopyInIff(s, pid, NextPage(va), len - ChunkLen(va, len));
    }
  }

  /** How many free pages a process needs to get pages of its own for the copy-on-write ones
      among pages v..hi-1: the old page joins the free list if this was its last use. */
  ghost function Need(ref: seq<nat>, pte: map<Key, PTE>, pid: nat, v: nat, hi: nat): nat
    requires forall k :: k in pte ==> pte[k].ppn < |ref|
    decreases hi - v
  {
    if v >= hi then 0
    else
      var k := Key(pid, v);
      if k !in pte || !pte[k].cow then Need(ref, pte, pid, v + 1, hi)
      else
        var p := pte[k].ppn;
        if ref[p] <= 1 then Max(1, Need(ref[p := 0], pte, pid, v + 1, hi))
        else 1 + Need(ref[p := ref[p] - 1], pte, pid, v + 1, hi)
  }

  function Max(a: nat, b: nat): nat {
    if a < b then b else a
  }

  lemma {:induction false} NeedSame(ref: seq<nat>, pte: map<Key, PTE>, ref': seq<nat>, pte': map<Key, PTE>, pid: nat,
                                    v: nat, hi: nat)
    requires (forall k :: k in pte ==> pte[k].ppn < |ref|) && (forall k :: k in pte' ==> pte'[k].ppn < |ref'|)
    requires forall u: nat :: v <= u < hi ==> (Key(pid, u) in pte <==> Key(pid, u) in pte')
    requires forall u: nat :: v <= u < hi && Key(pid, u) in pte ==>
               pte'[Key(pid, u)] == pte[Key(pid, u)] && ref'[pte[Key(pid, u)].ppn] == ref[pte[Key(pid, u)].ppn]
    ensures Need(ref, pte, pid, v, hi) == Need(ref', pte', pid, v, hi)
    decreases hi - v
  {
    if v < hi {
      var k := Key(pid, v);
      if k !in pte || !pte[k].cow {
        NeedSame(ref, pte, ref', pte', pid, v + 1, hi);
      } else {
        var p := pte[k].ppn;
        var x := if ref[p] <= 1 then 0 else ref[p] - 1;
        NeedSame(ref[p := x], pte, ref'[p := x], pte', pid, v + 1, hi);
      }
    }
  }

  /** copyout can have all its pages: they are user pages, page 0 is not among them, and there
      are free pages for the copies. */
  ghost predicate Storable(s: Sys, pid: nat, lo: nat, hi: nat)
    requires PagesOk(s)
  {
    && UserRange(s, pid, lo, hi) && (lo < hi ==> lo != 0)
    && Need(s.ref, s.pte, pid, lo, hi) <= |s.free|
  }

  /** One page of a range. */
  lemma {:induction false} StorableNext(s: Sys, pid: nat, v: nat, hi: nat, s1: Sys)
    requires PagesOk(s) && PagesOk(s1) && 0 < v < hi && UserAt(s, pid, v)
    requires s.pte[Key(pid, v)].cow ==> s.free != []
    requires var s0 := if s.pte[Key(pid, v)].cow then Privatize(s, Key(pid, v)) else s;
             s1.ref == s0.ref && s1.pte == s0.pte && s1.free == s0.free
    ensures Storable(s, pid, v, hi) <==> Storable(s1, pid, v + 1, hi)
  {
    hide Privatize, Kalloc, Kfree;
    var k := Key(pid, v);
    if s.pte[k].cow {
      PrivatizeOk(s, k);
      PrivatizeCounts(s, k);
      var p, n := s.pte[k].ppn, s.free[0];
      forall j | j in s.pte ensures s.pte[j].ppn != n { assert j !in Mappers(s.pte, n); }
      var x := if s.ref[p] <= 1 then 0 else s.ref[p] - 1;
      NeedSame(s.ref[p := x], s.pte, s1.ref, s1.pte, pid, v + 1, hi);
    }
    UserSplit(s, pid, v, hi);
    UserNext(s, pid, v, hi, s1);
  }

  lemma {:induction false} UserNext(s: Sys, pid: nat, v: nat, hi: nat, s1: Sys)
    requires forall k :: k != Key(pid, v) ==> (k in s1.pte <==> k in s.pte) && (k in s.pte ==> s1.pte[k] == s.pte[k])
    ensures UserRange(s, pid, v + 1, hi) <==> UserRange(s1, pid, v + 1, hi)
  {
    forall u: nat | v < u ensures UserAt(s, pid, u) <==> UserAt(s1, pid, u) { assert Key(pid, u) != Key(pid, v); }
  }

  /** A round of copyout succeeds exactly on a user page other than page 0, if it is not
      copy-on-write or there is a free page. */
  lemma {:induction false} RoundIff(s: Sys, pid: nat, va: nat, src: seq<int>, i: nat)
    requires PagesOk(s) && i < |src|
    ensures var (s1, ok), v := CopyOutRound(s, pid, va, src, i), Vpn(va);
            && PagesOk(s1)
            && (ok <==> 0 < v && UserAt(s, pid, v) && (s.pte[Key(pid, v)].cow ==> s.free != []))
            && (ok ==> var s0 := if s.pte[Key(pid, v)].cow then Privatize(s, Key(pid, v)) else s;
                       s1.ref == s0.ref && s1.pte == s0.pte && s1.free == s0.free)
  {
    hide Privatize, Off, Vpn, Overlay, ChunkLen, PagesOk;
    UserPageIs(s, pid, va);
    CopyOutRoundOk(s, pid, va, src, i);
    CopyOutRoundIs(s, pid, va, src, i);
    hide CopyOutRound;
  }

  /** copyout stores all bytes if and only if it can have all the pages of the range. */
  lemma {:induction false} CopyOutIff(s: Sys, pid: nat, va: nat, src: seq<int>, i: nat)
    requires PagesOk(s) && i <= |src|
    ensures CopyOut(s, pid, va, src, i).1 == |src| <==> Storable(s, pid, Vpn(va), PastLast(va, |src| - i))
    decreases |src| - i
  {
    hide PagesOk, Adds, CopyOutRound, Off, Vpn, NextPage, ChunkLen, Storable, Privatize;
    if i < |src| {
      RangeNext(va, |src| - i);
      RoundIff(s, pid, va, src, i);
      hide PastLast;
      var (s1, ok) := CopyOutRound(s, pid, va, src, i);
      if ok {
        CopyOutIff(s1, pid, NextPage(va), src, i + ChunkLen(va, |src| - i));
        StorableNext(s, pid, Vpn(va), PastLast(va, |src| - i), s1);
      } else {
        NotStorable(s, pid, Vpn(va), PastLast(va, |src| - i));
      }
    } else {
      NothingToStore(s, pid, Vpn(va));
    }
  }

  /** Otherwise it stores the bytes up to the first page that it cannot have. */
  lemma {:induction false} CopyOutStops(s: Sys, pid: nat, va: nat, src: seq<int>, i: nat)
    requires PagesOk(s) && i <= |src| && CopyOut(s, pid, va, src, i).1 < |src|
    ensures var j := CopyOut(s, pid, va, src, i).1;
            && i <= j
            && var e := va + (j - i);
               && (j > i ==> Off(e) == 0)
               && Storable(s, pid, Vpn(va), Vpn(e)) && !Storable(s, pid, Vpn(va), Vpn(e) + 1)
    decreases |src| - i
  {
    hide PagesOk, Adds, CopyOutRound, Storable, Privatize, Off, Vpn, NextPage, ChunkLen;
    RoundIff(s, pid, va, src, i);
    var (s1, ok) := CopyOutRound(s, pid, va, src, i);
    if ok {
      var n := ChunkLen(va, |src| - i);
      NextChunk(va, |src| - i);
      CopyOutStops(s1, pid, NextPage(va), src, i + n);
      var e := va + (CopyOut(s, pid, va, src, i).1 - i);
      PageOrder(NextPage(va), e);
      PageStart(va);
      StorableNext(s, pid, Vpn(va), Vpn(e), s1);
      StorableNext(s, pid, Vpn(va), Vpn(e) + 1, s1);
    } else {
      NothingToStore(s, pid, Vpn(va));
      NotStorable(s, pid, Vpn(va), Vpn(va) + 1);
    }
  }

  lemma {:induction false} PageOrder(a: nat, b: nat)
    requires a <= b
    ensures Vpn(a) <= Vpn(b)
  {
  }

  lemma {:induction false} NothingToStore(s: Sys, pid: nat, v: nat)
    requires PagesOk(s)
    ensures Storable(s, pid, v, v)
  {
  }

  lemma {:induction false} NotStorable(s: Sys, pid: nat, v: nat, hi: nat)
    requires PagesOk(s) && v < hi
    requires !(0 < v && UserAt(s, pid, v) && (s.pte[Key(pid, v)].cow ==> s.free != []))
    ensures !Storable(s, pid, v, hi)
  {
    UserSplit(s, pid, v, hi);
  }

  /** Nothing can be copied out to page 0, although every process has one. */
  lemma {:induction false} PageZeroRefused(s: Sys, pid: nat, va: nat, src: seq<int>)
    requires PagesOk(s) && Vpn(va) == 0 && src != []
    ensures CopyOut(s, pid, va, src, 0) == (s, 0)
  {
    assert va - Off(va) == 0;
    CopyOutRoundIs(s, pid, va, src, 0);
  }

  // ---- copyin ----

  /** copyin reads the process's bytes. */
  lemma {:induction false} CopyInReads(s: Sys, pid: nat, va: nat, len: nat)
    requires PagesOk(s) && CopyIn(s, pid, va, len).Some?
    ensures var bs, m := CopyIn(s, pid, va, len).value, Contents(s);
            && |bs| == len
            && forall a :: va <= a < va + len ==>
                 Key(pid, Vpn(a)) in m && |m[Key(pid, Vpn(a))]| == PGSIZE && bs[a - va] == m[Key(pid, Vpn(a))][Off(a)]
    decreases len
  {
    if len > 0 {
      var n, m := ChunkLen(va, len), Contents(s);
      CopyInReads(s, pid, NextPage(va), len - n);
      var rest := CopyIn(s, pid, NextPage(va), len - n).value;
      var bs := CopyIn(s, pid, va, len).value;
      forall a | va <= a < va + len
        ensures Key(pid, Vpn(a)) in m && |m[Key(pid, Vpn(a))]| == PGSIZE && bs[a - va] == m[Key(pid, Vpn(a))][Off(a)]
      {
        if a - va < n {
          WithinPage(va, a);
        } else {
          assert bs[a - va] == rest[a - va - n];
        }
      }
    }
  }

  lemma {:induction false} WithinPage(va: nat, a: nat)
    requires va <= a && Off(va) + (a - va) < PGSIZE
    ensures Vpn(a) == Vpn(va) && Off(a) == Off(va) + (a - va)
  {
  }

  lemma {:induction false} ReadsWritten(m: map<Key, Content>, s: Sys, pid: nat, va: nat, src: seq<int>)
    requires PagesOk(s) && CopyIn(s, pid, va, |src|).Some? && Written(m, Contents(s), pid, va, src, 0, |src|)
    ensures CopyIn(s, pid, va, |src|) == Some(src)
  {
    CopyInReads(s, pid, va, |src|);
    var bs, m' := CopyIn(s, pid, va, |src|).value, Contents(s);
    forall x | 0 <= x < |src| ensures bs[x] == src[x] {
      var a := va + x;
      var k := Key(pid, Vpn(a));
      AddrSplit(a);
      assert bs[a - va] == m'[k][Off(a)];
      assert k in m && k.vpn * 4096 + Off(a) == a;
    }
    assert bs == src;
  }

  lemma {:induction false} UserKept(s: Sys, s': Sys, pid: nat, lo: nat, hi: nat)
    requires KeepsUser(s, s') && UserRange(s, pid, lo, hi)
    ensures UserRange(s', pid, lo, hi)
  {
    forall v: nat | lo <= v < hi ensures UserAt(s', pid, v) { assert UserAt(s, pid, v); }
  }

  /** What a complete copyout stores, copyin reads back. */
  lemma {:induction false} CopyRoundTrip(s: Sys, pid: nat, va: nat, src: seq<int>)
    requires PagesOk(s) && CopyOut(s, pid, va, src, 0).1 == |src|
    ensures CopyIn(CopyOut(s, pid, va, src, 0).0, pid, va, |src|) == Some(src)
  {
    hide PagesOk, Adds, Written, Contents, CopyOut, CopyIn, Off, Vpn;
    var s' := CopyOut(s, pid, va, src, 0).0;
    Sees(s);
    Sees(s');
    CopyOutShows(s, pid, va, src, 0);
    CopyOutIff(s, pid, va, src, 0);
    UserKept(s, s', pid, Vpn(va), PastLast(va, |src|));
    CopyInIff(s', pid, va, |src|);
    ReadsWritten(Contents(s), CopyOut(s, pid, va, src, 0).0, pid, va, src);
  }

  // ---- Runs ----

  /** The page number of the trampoline; the trapframe is the page before it. */
  const TOP: nat := VPNS - 1

  /** The memory system and the sizes of its processes. */
  datatype World = World(s: Sys, sz: map<nat, nat>)

  datatype Op =
    | Fork(p: nat, c: nat)
    | UserStore(pid: nat, va: nat, b: int)
    | KernelStore(pid: nat, va: nat, src: seq<int>)
    | Grow(pid: nat, newsz: nat)
    | Shrink(pid: nat, newsz: nat)
    | Exit(pid: nat)
    | KernelAlloc
    | KernelFree(page: nat)

  /** Every process has exactly the pages of its size. */
  ghost predicate KeysOk(keys: set<Key>, sz: map<nat, nat>) {
    forall k {:trigger k in keys} :: k in keys <==> k.pid in sz && k.vpn < NPages(sz[k.pid])
  }

  /** The tables are those of the processes, and lead to all their pages. */
  ghost predicate TreesOk(tab: set<Node>, sz: map<nat, nat>) {
    && (forall n :: n in tab ==> n.root in sz)
    && (forall pid :: pid in sz ==> TreeOf(tab, pid, NPages(sz[pid])))
  }

  ghost predicate TreeOf(tab: set<Node>, pid: nat, n: nat) {
    n < TOP && Path(pid, TOP) <= tab && PathNodes(pid, 0, n) <= tab
  }

  ghost predicate WorldOk(w: World) {
    PagesOk(w.s) && TabOk(w.s) && KeysOk(w.s.pte.Keys, w.sz) && TreesOk(w.s.tab.Keys, w.sz)
  }

  /** A page that holds a table. */
  ghost predicate IsTable(s: Sys, p: nat) {
    exists n :: n in s.tab && s.tab[n] == p
  }

  /** The operation makes sense in this state. */
  ghost predicate Enabled(w: World, op: Op) {
    match op
    case Fork(p, c) => p in w.sz && c !in w.sz
    case UserStore(pid, _, _) => pid in w.sz
    case KernelStore(pid, _, _) => pid in w.sz
    case Grow(pid, newsz) => pid in w.sz && newsz >= w.sz[pid] && NPages(newsz) < TOP
    case Shrink(pid, newsz) => pid in w.sz && newsz < w.sz[pid]
    case Exit(pid) => pid in w.sz
    case KernelAlloc => true
    case KernelFree(page) => page in w.s.kern && page < |w.s.ref| && !IsTable(w.s, page)
  }

  // ---- The address space of a new process ----

  /** The page table of a new process: the root, and the tables for the trampoline and the
      trapframe. */
  function NewTables(s: Sys, c: nat): (r: (Sys, bool))
    requires PagesOk(s) && TabOk(s) && forall n :: n in s.tab ==> n.root != c
  {
    if s.free == [] then (s, false)
    else
      TakeTableOk(s, Node(c, 2, 0));
      TakeTabOk(s, Node(c, 2, 0));
      var s1 := TakeTable(s, Node(c, 2, 0));
      WalkOk(s1, c, TOP);
      var (s2, ok) := Walk(s1, c, TOP);
      if ok then (s2, true) else (FreeTables(s2, c), false)
  }

  /** It comes to be if and only if there are three free pages; otherwise nothing is left of it. */
  lemma {:induction false} NewTablesOk(s: Sys, c: nat)
    requires PagesOk(s) && TabOk(s) && forall n :: n in s.tab ==> n.root != c
    ensures var (s', ok) := NewTables(s, c);
            && PagesOk(s') && TabOk(s') && Adds(s, s', -1) && s'.pte == s.pte && Contents(s') == Contents(s)
            && Supplied(s.tab.Keys, |s.free|, Path(c, TOP), ok, s'.tab.Keys, |s'.free|)
            && if ok then Node(c, 2, 0) in s'.tab && TablesOf(s, s', c) else s'.tab == s.tab
  {
    hide PagesOk, TabOk, Adds, Path, Walk, Supplied, FreeTables, TablesOf, Contents, TakeTable;
    Sees(s);
    NothingAdded(s);
    NoTables(s.tab.Keys, |s.free|, c);
    if s.free != [] {
      NewRoot(s, c);
      NewTree(s, TakeTable(s, Node(c, 2, 0)), c);
      var (s2, ok) := Walk(TakeTable(s, Node(c, 2, 0)), c, TOP);
      if !ok {
        FreeTablesOk(s2, c);
        var s3 := FreeTables(s2, c);
        AddsBoth(s, s2, s3, -1);
        TabBack(s, s2, s3, c);
        SuppliedLess(s.tab.Keys, |s.free|, Path(c, TOP), Path(c, TOP), s2.tab.Keys, |s2.free|, s3.tab.Keys, |s3.free|);
      }
    }
  }

  /** The root of the tree. */
  lemma {:induction false} NewRoot(s: Sys, c: nat)
    requires PagesOk(s) && TabOk(s) && (forall n :: n in s.tab ==> n.root != c) && s.free != []
    ensures var s1 := TakeTable(s, Node(c, 2, 0));
            && PagesOk(s1) && TabOk(s1) && Node(c, 2, 0) in s1.tab && Adds(s, s1, -1) && s1.pte == s.pte
            && Contents(s1) == Contents(s)
            && TablesOf(s, s1, c) && Supplied(s.tab.Keys, |s.free|, {Node(c, 2, 0)}, true, s1.tab.Keys, |s1.free|)
  {
    hide PagesOk, TabOk, Adds, Supplied, TablesOf, Contents, TakeTable;
    Sees(s);
    var root := Node(c, 2, 0);
    TakeTableOk(s, root);
    TakeTabOk(s, root);
    var s1 := TakeTable(s, root);
    RootOf(s, s1, c);
  }

  /** The walk from there to the trampoline. */
  lemma {:induction false} NewTree(s: Sys, s1: Sys, c: nat)
    requires PagesOk(s) && PagesOk(s1) && TabOk(s1) && Node(c, 2, 0) in s1.tab && Adds(s, s1, -1)
    requires TablesOf(s, s1, c) && Supplied(s.tab.Keys, |s.free|, {Node(c, 2, 0)}, true, s1.tab.Keys, |s1.free|)
    ensures var (s2, ok) := Walk(s1, c, TOP);
            && PagesOk(s2) && TabOk(s2) && Adds(s, s2, -1) && s2.pte == s1.pte && Contents(s2) == Contents(s1)
            && TablesOf(s, s2, c) && Node(c, 2, 0) in s2.tab
            && Supplied(s.tab.Keys, |s.free|, Path(c, TOP), ok, s2.tab.Keys, |s2.free|)
  {
    hide PagesOk, TabOk, Adds, Path, PathTo, Walk, Supplied, TablesOf, MoreTables, Contents;
    WalkOk(s1, c, TOP);
    var (s2, ok) := Walk(s1, c, TOP);
    MoreOf(s1, s2, c);
    TablesTwice(s, s1, s2, c);
    SuppliedFrom(s.tab.Keys, |s.free|, c, s1.tab.Keys, |s1.free|, ok, s2.tab.Keys, |s2.free|);
    AddsBoth(s, s1, s2, -1);
  }

  lemma {:induction false} RootOf(s: Sys, s1: Sys, c: nat)
    requires (forall n :: n in s.tab ==> n.root != c) && s.free != [] && s1.tab == s.tab[Node(c, 2, 0) := s.free[0]]
             && s1.free == s.free[1..]
    ensures TablesOf(s, s1, c) && Supplied(s.tab.Keys, |s.free|, {Node(c, 2, 0)}, true, s1.tab.Keys, |s1.free|)
  {
    hide Supplied;
    var root := Node(c, 2, 0);
    assert root !in s.tab;
    KeysPut(s.tab, root, s.free[0]);
    SuppliedOne(s.tab.Keys, |s.free|, root);
  }

  lemma {:induction false} KeysPut(tab: map<Node, nat>, n: Node, p: nat)
    ensures tab[n := p].Keys == tab.Keys + {n}
  {
  }

  lemma {:induction false} MoreOf(s: Sys, s': Sys, c: nat)
    requires MoreTables(s, s', c)
    ensures PagesOk(s') && TabOk(s') && Adds(s, s', -1) && TablesOf(s, s', c) && s'.pte == s.pte
    ensures (forall k :: k in s.pte ==> s.pte[k].ppn < |s.page|) && Contents(s') == Contents(s)
  {
  }

  lemma {:induction false} TablesTwice(s: Sys, s1: Sys, s2: Sys, c: nat)
    requires TablesOf(s, s1, c) && TablesOf(s1, s2, c)
    ensures TablesOf(s, s2, c)
  {
  }

  /** Without the tables of the new process, the tables are the old ones. */
  lemma {:induction false} TabBack(s: Sys, s2: Sys, s3: Sys, c: nat)
    requires TablesOf(s, s2, c) && (forall n :: n in s.tab ==> n.root != c)
    requires s3.tab == map m | m in s2.tab && m.root != c :: s2.tab[m]
    ensures s3.tab == s.tab
  {
  }

  lemma {:induction false} NoTables(have: set<Node>, left: nat, c: nat)
    requires forall n :: n in have ==> n.root != c
    ensures left == 0 ==> Supplied(have, left, Path(c, TOP), false, have, left)
  {
    assert OnPath(c, 2, TOP) in Path(c, TOP) - have;
  }

  lemma {:induction false} SuppliedFrom(have: set<Node>, left: nat, c: nat, have1: set<Node>, left1: nat, ok: bool,
                                        have2: set<Node>, left2: nat)
    requires Supplied(have, left, {Node(c, 2, 0)}, true, have1, left1)
             && Supplied(have1, left1, Path(c, TOP), ok, have2, left2)
    ensures Supplied(have, left, Path(c, TOP), ok, have2, left2)
  {
    assert {Node(c, 2, 0)} + Path(c, TOP) == Path(c, TOP);
    SuppliedBoth(have, left, {Node(c, 2, 0)}, have1, left1, Path(c, TOP), ok, have2, left2, Path(c, TOP));
  }

  /** fork, as far as memory is concerned: a new page table, uvmcopy, and if that fails the
      page table is freed. */
  function ForkSpace(s: Sys, p: nat, c: nat, n: nat): (r: (Sys, bool))
    requires ForkReady(s, p, c, n)
  {
    NewTablesOk(s, c);
    var (s1, ok1) := NewTables(s, c);
    if !ok1 then (s1, false)
    else
      var (s2, ok) := UvmCopy(s1, p, c, 0, n);
      if ok then (s2, true) else (FreeTables(s2, c), false)
  }

  ghost predicate ForkReady(s: Sys, p: nat, c: nat, n: nat) {
    && PagesOk(s) && TabOk(s) && p != c && n < TOP && (forall m :: m in s.tab ==> m.root != c)
    && HasPages(s, p, 0, n) && NoPages(s, c, 0)
  }

  /** The tables that the child needs. */
  ghost function ChildTables(c: nat, n: nat): set<Node> {
    Path(c, TOP) + PathNodes(c, 0, n)
  }

  /** fork has memory if and only if there are free pages for all tables of the child. */
  lemma {:induction false} ForkSupplied(s: Sys, p: nat, c: nat, n: nat)
    requires ForkReady(s, p, c, n)
    ensures var (s', ok) := ForkSpace(s, p, c, n);
            && Supplied(s.tab.Keys, |s.free|, ChildTables(c, n), ok, s'.tab.Keys, |s'.free|)
            && if ok then TablesOf(s, s', c) else s'.tab == s.tab
  {
    hide PagesOk, TabOk, Adds, Supplied, Path, PathNodes, UvmCopy, FreeTables, NewTables, TablesOf, Contents;
    NewTablesOk(s, c);
    var (s1, ok1) := NewTables(s, c);
    if ok1 {
      UvmCopySupplied(s1, p, c, 0, n);
      var (s2, ok) := UvmCopy(s1, p, c, 0, n);
      TablesTwice(s, s1, s2, c);
      SuppliedBoth(s.tab.Keys, |s.free|, Path(c, TOP), s1.tab.Keys, |s1.free|, PathNodes(c, 0, n), ok, s2.tab.Keys,
                   |s2.free|,
                   ChildTables(c, n));
      if !ok {
        FreeTablesOk(s2, c);
        var s3 := FreeTables(s2, c);
        TabBack(s, s2, s3, c);
        SuppliedLess(s.tab.Keys, |s.free|, ChildTables(c, n), ChildTables(c, n), s2.tab.Keys, |s2.free|, s3.tab.Keys,
                     |s3.free|);
      }
    } else {
      SuppliedLess(s.tab.Keys, |s.free|, Path(c, TOP), ChildTables(c, n), s1.tab.Keys, |s1.free|, s1.tab.Keys,
                   |s1.free|);
    }
  }

  lemma {:induction false} NoneUnshared(pte: map<Key, PTE>, p: nat, c: nat)
    ensures Unshared(pte, pte, p, c, 0)
  {
  }

  /** The child sees private copies and may use them as the parent may, or nothing has changed
      for anybody. */
  lemma {:induction false} ForkShows(s: Sys, p: nat, c: nat, n: nat)
    requires ForkReady(s, p, c, n)
    ensures var (s', ok) := ForkSpace(s, p, c, n);
            && PagesOk(s') && TabOk(s') && |s'.ref| == |s.ref|
            && (forall v: nat :: v < n ==> Key(p, v) in Contents(s))
            && Contents(s') == (if ok then EagerCopy(Contents(s), p, c, 0, n) else Contents(s))
            && if ok then Shared(s.pte, s'.pte, p, c, 0, n) else Unshared(s.pte, s'.pte, p, c, 0)
  {
    hide PagesOk, TabOk, Adds, Supplied, UvmCopy, FreeTables, NewTables, Shared, Unshared;
    NoneUnshared(s.pte, p, c);
    Sees(s);
    NewTablesOk(s, c);
    var (s1, ok1) := NewTables(s, c);
    SizeKept(s, s1, -1);
    if ok1 {
      UvmCopyShows(s1, p, c, 0, n);
      var (s2, ok) := UvmCopy(s1, p, c, 0, n);
      if !ok {
        FreeTablesOk(s2, c);
        SizeKept(s2, FreeTables(s2, c), -1);
      }
    }
  }

  /** A fork that fails in uvmcopy leaves one count too many; every other one leaves none. */
  lemma {:induction false} ForkCounts(s: Sys, p: nat, c: nat, n: nat)
    requires ForkReady(s, p, c, n)
    ensures var s' := ForkSpace(s, p, c, n).0;
            if |Path(c, TOP) - s.tab.Keys| <= |s.free| < |ChildTables(c, n) - s.tab.Keys|
            then exists v: nat :: v < n && Leaks(s, s', p, v)
            else Adds(s, s', -1)
  {
    hide PagesOk, TabOk, Adds, Supplied, UvmCopy, FreeTables, NewTables, Path, PathNodes, ChildTables, TablesOf,
      Contents;
    NewTablesOk(s, c);
    var (s1, ok1) := NewTables(s, c);
    SuppliedIff(s.tab.Keys, |s.free|, Path(c, TOP), ok1, s1.tab.Keys, |s1.free|);
    ForkSupplied(s, p, c, n);
    var (s', ok') := ForkSpace(s, p, c, n);
    SuppliedIff(s.tab.Keys, |s.free|, ChildTables(c, n), ok', s'.tab.Keys, |s'.free|);
    if ok1 {
      UvmCopyCounts(s1, p, c, 0, n);
      var (s2, ok) := UvmCopy(s1, p, c, 0, n);
      if ok {
        AddsBoth(s, s1, s2, -1);
      } else {
        var v: nat :| v < n && Leaks(s1, s2, p, v);
        FreeTablesOk(s2, c);
        var s3, pg := FreeTables(s2, c), s1.pte[Key(p, v)].ppn;
        AddsBoth(s, s1, s2, pg);
        AddsBoth(s, s2, s3, pg);
        assert Leaks(s, s3, p, v);
      }
    }
  }

  lemma {:induction false} OpReady(w: World, op: Op)
    requires WorldOk(w) && Enabled(w, op)
    ensures op.Fork? ==> ForkReady(w.s, op.p, op.c, NPages(w.sz[op.p]))
    ensures op.Grow? ==> NPages(w.sz[op.pid]) <= NPages(op.newsz)
                         && GrowReady(w.s, op.pid, NPages(w.sz[op.pid]), NPages(w.sz[op.pid]), NPages(op.newsz))
    ensures op.Shrink? ==> NPages(op.newsz) <= NPages(w.sz[op.pid])
                           && HasPages(w.s, op.pid, NPages(op.newsz), NPages(w.sz[op.pid]))
    ensures op.Exit? ==> HasPages(w.s, op.pid, 0, NPages(w.sz[op.pid])) && Node(op.pid, 2, 0) in w.s.tab
    ensures op.KernelFree? ==> w.s.ref[op.page] > 0
  {
    hide SharedIsCow, TabOk, Closed, PathNodes;
    if op.KernelFree? { assert Extra(w.s, op.page) >= 0; }
    if op.Fork? { assert TreeOf(w.s.tab.Keys, op.p, NPages(w.sz[op.p])); }
    if op.Grow? || op.Exit? {
      assert TreeOf(w.s.tab.Keys, op.pid, NPages(w.sz[op.pid]));
      assert OnPath(op.pid, 2, TOP) in Path(op.pid, TOP);
    }
  }

  lemma {:induction false} UnmapTab(s: Sys, pid: nat, lo: nat, hi: nat)
    requires PagesOk(s) && TabOk(s) && lo <= hi && HasPages(s, pid, lo, hi)
    ensures var s' := Unmap(s, pid, lo, hi); PagesOk(s') && TabOk(s') && Adds(s, s', -1) && s'.tab == s.tab
  {
    SameTab(s, Unmap(s, pid, lo, hi));
  }

  /** One operation, and what it reports: 1 or 0 for success or refusal, or a byte count. */
  ghost function Step(w: World, op: Op): (r: (World, nat))
    requires WorldOk(w) && Enabled(w, op)
  {
    OpReady(w, op);
    match op
    case Fork(p, c) =>
      var (s', ok) := ForkSpace(w.s, p, c, NPages(w.sz[p]));
      if ok then (World(s', w.sz[c := w.sz[p]]), 1) else (World(s', w.sz), 0)
    case UserStore(pid, va, b) =>
      var (s', ok) := Store(w.s, pid, va, b);
      (World(s', w.sz), if ok then 1 else 0)
    case KernelStore(pid, va, src) =>
      var (s', j) := CopyOut(w.s, pid, va, src, 0);
      (World(s', w.sz), j)
    case Grow(pid, newsz) =>
      var n := NPages(w.sz[pid]);
      var (s', ok) := UvmAlloc(w.s, pid, n, n, NPages(newsz), true, false);
      if ok then (World(s', w.sz[pid := newsz]), 1) else (World(s', w.sz), 0)
    case Shrink(pid, newsz) =>
      (World(Unmap(w.s, pid, NPages(newsz), NPages(w.sz[pid])), w.sz[pid := newsz]), 1)
    case Exit(pid) =>
      UnmapTab(w.s, pid, 0, NPages(w.sz[pid]));
      (World(FreeTables(Unmap(w.s, pid, 0, NPages(w.sz[pid])), pid), w.sz - {pid}), 1)
    case KernelAlloc =>
      if w.s.free == [] then (w, 0)
      else (World(Kalloc(w.s).0.(kern := w.s.kern + multiset{w.s.free[0]}), w.sz), 1)
    case KernelFree(page) =>
      (World(Kfree(w.s, page).(kern := w.s.kern - multiset{page}), w.sz), 1)
  }

  /** The system with eager copies: each process's pages are its own; `user` are those it may
      use. */
  datatype Eager = Eager(mem: map<Key, Content>, sz: map<nat, nat>, user: set<Key>)

  /** The user pages with those of a new process, which may use what its parent may. */
  ghost function CopiedUsers(user: set<Key>, p: nat, c: nat, n: nat): set<Key> {
    user + set v: nat | v < n && Key(p, v) in user :: Key(c, v)
  }

  ghost function RangeKeys(pid: nat, lo: nat, hi: nat): set<Key> {
    set v: nat | lo <= v < hi :: Key(pid, v)
  }

  /** What the operation does there, given what it reported. */
  ghost predicate EagerNext(e: Eager, op: Op, out: nat, e': Eager) {
    match op
    case Fork(p, c) =>
      if out == 0 then e' == e
      else
        && p in e.sz && c !in e.sz && (forall v: nat :: v < NPages(e.sz[p]) ==> Key(p, v) in e.mem)
        && e' == Eager(EagerCopy(e.mem, p, c, 0, NPages(e.sz[p])), e.sz[c := e.sz[p]],
                       CopiedUsers(e.user, p, c, NPages(e.sz[p])))
    case UserStore(pid, va, b) =>
      if out == 0 then e' == e
      else
        var k := Key(pid, Vpn(va));
        && k in e.mem && |e.mem[k]| == PGSIZE
        && e' == Eager(e.mem[k := e.mem[k][Off(va) := b]], e.sz, e.user)
    case KernelStore(pid, va, src) => 
      Written(e.mem, e'.mem, pid, va, src, 0, out) && e'.sz == e.sz && e'.user == e.user
    case Grow(pid, newsz) =>
      if out == 0 then e' == e
      else
        && pid in e.sz && NPages(e.sz[pid]) <= NPages(newsz)
        && e' == Eager(EagerGrow(e.mem, pid, NPages(e.sz[pid]), NPages(newsz)), e.sz[pid := newsz],
                       e.user + RangeKeys(pid, NPages(e.sz[pid]), NPages(newsz)))
    case Shrink(pid, newsz) =>
      && pid in e.sz && NPages(newsz) <= NPages(e.sz[pid])
      && e' == Eager(RemoveRange(e.mem, pid, NPages(newsz), NPages(e.sz[pid])), e.sz[pid := newsz],
                     e.user - RangeKeys(pid, NPages(newsz), NPages(e.sz[pid])))
    case Exit(pid) =>
      && pid in e.sz
      && e' == Eager(RemoveRange(e.mem, pid, 0, NPages(e.sz[pid])), e.sz - {pid},
                     e.user - RangeKeys(pid, 0, NPages(e.sz[pid])))
    case KernelAlloc => e' == e
    case KernelFree(_) => e' == e
  }

  /** When the operation is carried out in full. */
  ghost predicate Accepts(w: World, op: Op)
    requires WorldOk(w) && Enabled(w, op)
  {
    var s := w.s;
    match op
    case Fork(p, c) => |ChildTables(c, NPages(w.sz[p])) - s.tab.Keys| <= |s.free|
    case UserStore(pid, va, _) =>
      var k := Key(pid, Vpn(va));
      va < MAXVA && k in s.pte && s.pte[k].u && (s.pte[k].w || (va != 0 && s.pte[k].cow && s.free != []))
    case KernelStore(pid, va, src) => Storable(s, pid, Vpn(va), PastLast(va, |src|))
    case Grow(pid, newsz) =>
      var lo, hi := NPages(w.sz[pid]), NPages(newsz);
      hi - lo + |PathNodes(pid, lo, hi) - s.tab.Keys| <= |s.free|
    case KernelAlloc => s.free != []
    case _ => true
  }

  /** It reports success, or all bytes, if and only if that holds. */
  lemma {:induction false} AcceptsIff(w: World, op: Op)
    requires WorldOk(w) && Enabled(w, op)
    ensures Step(w, op).1 == (if op.KernelStore? then |op.src| else 1) <==> Accepts(w, op)
  {
    hide PagesOk, TabOk, UvmAlloc, ForkSpace, CopyOut, Store, Unmap, FreeTables, ChildTables, PathNodes, Need;
    OpReady(w, op);
    match op
    case Fork(p, c) => ForkSupplied(w.s, p, c, NPages(w.sz[p]));
    case UserStore(pid, va, b) => StoreOk(w.s, pid, va, b);
    case KernelStore(pid, va, src) => CopyOutIff(w.s, pid, va, src, 0);
    case Grow(pid, newsz) =>
      UvmAllocIff(w.s, pid, NPages(w.sz[pid]), NPages(w.sz[pid]), NPages(newsz), true, false);
    case _ =>
  }

  ghost function Abs(w: World): Eager
    requires PagesOk(w.s)
  {
    Eager(Contents(w.s), w.sz, Users(w.s.pte))
  }

  ghost function Users(pte: map<Key, PTE>): set<Key> {
    set k | k in pte && pte[k].u
  }

  lemma {:induction false} SameUsers(s: Sys, s': Sys)
    requires KeepsUser(s, s')
    ensures Users(s'.pte) == Users(s.pte)
  {
  }

  lemma {:induction false} ForkUsers(pte: map<Key, PTE>, pte': map<Key, PTE>, p: nat, c: nat, n: nat)
    requires p != c
    ensures Shared(pte, pte', p, c, 0, n) && (forall v: nat :: Key(c, v) !in pte) ==>
              Users(pte') == CopiedUsers(Users(pte), p, c, n)
    ensures Unshared(pte, pte', p, c, 0) ==> Users(pte') == Users(pte)
  {
    if Shared(pte, pte', p, c, 0, n) && (forall v: nat :: Key(c, v) !in pte) {
      forall k ensures k in Users(pte') <==> k in CopiedUsers(Users(pte), p, c, n) {
        assert k == Key(k.pid, k.vpn);
        if k.pid == p && k.vpn < n && k in pte { assert k in pte'; }
        if k.pid == c && k.vpn < n { assert k in pte' && Key(p, k.vpn) in pte; }
      }
    }
  }

  lemma {:induction false} GrowUsers(pte: map<Key, PTE>, pte': map<Key, PTE>, pid: nat, v: nat, hi: nat, w: bool,
                                     x: bool)
    requires Grown(pte, pte', pid, v, hi, w, x)
    ensures Users(pte') == Users(pte) + RangeKeys(pid, v, hi)
  {
    forall k ensures k in Users(pte') <==> k in Users(pte) + RangeKeys(pid, v, hi) {
      assert k == Key(k.pid, k.vpn);
    }
  }

  lemma {:induction false} DropUsers(pte: map<Key, PTE>, pid: nat, lo: nat, hi: nat)
    requires lo <= hi
    ensures Users(RemoveRange(pte, pid, lo, hi)) == Users(pte) - RangeKeys(pid, lo, hi)
  {
    RemovedAt(pte, pid, lo, hi);
    forall k ensures k in Users(RemoveRange(pte, pid, lo, hi)) <==> k in Users(pte) - RangeKeys(pid, lo, hi) {
      assert k == Key(k.pid, k.vpn);
    }
  }

  ghost predicate Refines(w: World, op: Op, w': World, out: nat) {
    WorldOk(w) && WorldOk(w') && EagerNext(Abs(w), op, out, Abs(w'))
  }

  lemma {:induction false} ForkRefines(w: World, op: Op)
    requires WorldOk(w) && Enabled(w, op) && op.Fork?
    ensures Refines(w, op, Step(w, op).0, Step(w, op).1)
  {
    hide PagesOk, TabOk, ForkSpace, Supplied, TablesOf, TreesOk, Contents, Shared, Unshared, Users, CopiedUsers;
    OpReady(w, op);
    var n := NPages(w.sz[op.p]);
    ForkShows(w.s, op.p, op.c, n);
    ForkUsers(w.s.pte, ForkSpace(w.s, op.p, op.c, n).0.pte, op.p, op.c, n);
    ForkSupplied(w.s, op.p, op.c, n);
    var (s', ok) := ForkSpace(w.s, op.p, op.c, n);
    Sees(w.s);
    Sees(s');
    ForkKeys(w.s.pte.Keys, Contents(w.s), w.sz, op.p, op.c);
    if ok { ForkTrees(w.s, s', w.sz, op.p, op.c); }
  }

  lemma {:induction false} ForkKeys(keys: set<Key>, m: map<Key, Content>, sz: map<nat, nat>, p: nat, c: nat)
    requires KeysOk(keys, sz) && m.Keys == keys && p in sz && c !in sz
    ensures forall v: nat :: v < NPages(sz[p]) ==> Key(p, v) in m
    ensures KeysOk(EagerCopy(m, p, c, 0, NPages(sz[p])).Keys, sz[c := sz[p]])
  {
    EagerCopyAt(m, p, c, 0, NPages(sz[p]));
  }

  lemma {:induction false} ForkTrees(s: Sys, s': Sys, sz: map<nat, nat>, p: nat, c: nat)
    requires TreesOk(s.tab.Keys, sz) && p in sz && c !in sz && TablesOf(s, s', c)
    requires Supplied(s.tab.Keys, |s.free|, ChildTables(c, NPages(sz[p])), true, s'.tab.Keys, |s'.free|)
    ensures TreesOk(s'.tab.Keys, sz[c := sz[p]])
  {
    var n, tab', sz' := NPages(sz[p]), s'.tab.Keys, sz[c := sz[p]];
    assert TreeOf(s.tab.Keys, p, n);
    assert tab' == s.tab.Keys + ChildTables(c, n);
    assert TreeOf(tab', c, n);
    hide TreeOf, ChildTables;
    forall pid | pid in sz' ensures TreeOf(tab', pid, NPages(sz'[pid])) {
      if pid != c { TreeMore(s.tab.Keys, tab', pid, NPages(sz[pid])); }
    }
  }

  lemma {:induction false} TreeMore(tab: set<Node>, tab': set<Node>, pid: nat, n: nat)
    requires TreeOf(tab, pid, n) && tab <= tab'
    ensures TreeOf(tab', pid, n)
  {
  }

  lemma {:induction false} StoreRefines(w: World, op: Op)
    requires WorldOk(w) && Enabled(w, op) && (op.UserStore? || op.KernelStore?)
    ensures Refines(w, op, Step(w, op).0, Step(w, op).1)
  {
    hide PagesOk, TabOk, Adds, Store, CopyOut, Written, TreesOk, Contents, Users, KeepsUser;
    Sees(w.s);
    if op.UserStore? {
      StoreOk(w.s, op.pid, op.va, op.b);
      StoreKeepsUser(w.s, op.pid, op.va, op.b);
      SameUsers(w.s, Store(w.s, op.pid, op.va, op.b).0);
      KeepsWorld(w, Store(w.s, op.pid, op.va, op.b).0);
    } else {
      CopyOutShows(w.s, op.pid, op.va, op.src, 0);
      CopyOutKeys(w.s, CopyOut(w.s, op.pid, op.va, op.src, 0).0);
      SameUsers(w.s, CopyOut(w.s, op.pid, op.va, op.src, 0).0);
      KeepsWorld(w, CopyOut(w.s, op.pid, op.va, op.src, 0).0);
    }
  }

  lemma {:induction false} CopyOutKeys(s: Sys, s': Sys)
    requires KeepsUser(s, s')
    ensures s'.pte.Keys == s.pte.Keys
  {
  }

  lemma {:induction false} StoreKeepsUser(s: Sys, pid: nat, va: nat, b: int)
    requires PagesOk(s)
    ensures KeepsUser(s, Store(s, pid, va, b).0)
  {
    hide PagesOk, Adds, CowFault;
    FaultKeepsUser(s, pid, va);
  }

  lemma {:induction false} KeepsWorld(w: World, s': Sys)
    requires WorldOk(w) && Keeps(w.s, s') && s'.pte.Keys == w.s.pte.Keys
    ensures WorldOk(World(s', w.sz))
  {
    SameTab(w.s, s');
  }

  lemma {:induction false} GrowRefines(w: World, op: Op)
    requires WorldOk(w) && Enabled(w, op) && op.Grow?
    ensures Refines(w, op, Step(w, op).0, Step(w, op).1)
  {
    hide PagesOk, TabOk, Adds, UvmAlloc, TablesOf, TreesOk, Contents, PathNodes, Grown, Users, RangeKeys;
    OpReady(w, op);
    var n, n' := NPages(w.sz[op.pid]), NPages(op.newsz);
    UvmAllocShows(w.s, op.pid, n, n, n', true, false);
    var (s', ok) := UvmAlloc(w.s, op.pid, n, n, n', true, false);
    if ok { GrowUsers(w.s.pte, s'.pte, op.pid, n, n', true, false); }
    Sees(w.s);
    Sees(s');
    GrowKeys(w.s.pte.Keys, Contents(w.s), w.sz, op.pid, op.newsz);
    UvmAllocTables(w.s, op.pid, n, n, n', true, false);
    GrowTrees(w.s, s', w.sz, op.pid, op.newsz, ok);
  }

  lemma {:induction false} GrowKeys(keys: set<Key>, m: map<Key, Content>, sz: map<nat, nat>, pid: nat, newsz: nat)
    requires KeysOk(keys, sz) && m.Keys == keys && pid in sz && NPages(sz[pid]) <= NPages(newsz)
    ensures KeysOk(EagerGrow(m, pid, NPages(sz[pid]), NPages(newsz)).Keys, sz[pid := newsz])
    ensures RemoveRange(m, pid, NPages(sz[pid]), NPages(sz[pid])) == m
  {
    EagerGrowAt(m, pid, NPages(sz[pid]), NPages(newsz));
  }

  lemma {:induction false} GrowTrees(s: Sys, s': Sys, sz: map<nat, nat>, pid: nat, newsz: nat, ok: bool)
    requires TreesOk(s.tab.Keys, sz) && pid in sz && TablesOf(s, s', pid) && NPages(sz[pid]) <= NPages(newsz) < TOP
    requires ok ==> PathNodes(pid, NPages(sz[pid]), NPages(newsz)) <= s'.tab.Keys
    ensures TreesOk(s'.tab.Keys, sz) && (ok ==> TreesOk(s'.tab.Keys, sz[pid := newsz]))
  {
    hide PathNodes, Path;
    PathSplit(pid, 0, NPages(sz[pid]), NPages(newsz));
    forall q | q in sz
      ensures TreeOf(s'.tab.Keys, q, NPages(sz[q])) && (ok ==> TreeOf(s'.tab.Keys, q, NPages(sz[pid := newsz][q])))
    {
      assert TreeOf(s.tab.Keys, q, NPages(sz[q]));
    }
  }

  lemma {:induction false} ShrinkRefines(w: World, op: Op)
    requires WorldOk(w) && Enabled(w, op) && op.Shrink?
    ensures Refines(w, op, Step(w, op).0, Step(w, op).1)
  {
    hide PagesOk, TabOk, Adds, Unmap, TreesOk, Contents, Users, RangeKeys;
    OpReady(w, op);
    DropUsers(w.s.pte, op.pid, NPages(op.newsz), NPages(w.sz[op.pid]));
    var lo, n := NPages(op.newsz), NPages(w.sz[op.pid]);
    Sees(w.s);
    UnmapShows(w.s, op.pid, lo, n);
    UnmapTab(w.s, op.pid, lo, n);
    RemovedAt(w.s.pte, op.pid, lo, n);
    ShrinkTrees(w.s.tab.Keys, w.sz, op.pid, op.newsz);
  }

  lemma {:induction false} ShrinkTrees(tab: set<Node>, sz: map<nat, nat>, pid: nat, newsz: nat)
    requires TreesOk(tab, sz) && pid in sz && NPages(newsz) <= NPages(sz[pid])
    ensures TreesOk(tab, sz[pid := newsz])
  {
    hide PathNodes, Path;
    PathSplit(pid, 0, NPages(newsz), NPages(sz[pid]));
    forall q | q in sz ensures TreeOf(tab, q, NPages(sz[pid := newsz][q])) { assert TreeOf(tab, q, NPages(sz[q])); }
  }

  lemma {:induction false} ExitRefines(w: World, op: Op)
    requires WorldOk(w) && Enabled(w, op) && op.Exit?
    ensures Refines(w, op, Step(w, op).0, Step(w, op).1)
  {
    hide PagesOk, TabOk, Adds, Unmap, FreeTables, TreesOk, Contents, Users, RangeKeys;
    OpReady(w, op);
    var n := NPages(w.sz[op.pid]);
    DropUsers(w.s.pte, op.pid, 0, n);
    Sees(w.s);
    UnmapShows(w.s, op.pid, 0, n);
    UnmapTab(w.s, op.pid, 0, n);
    RemovedAt(w.s.pte, op.pid, 0, n);
    FreeTablesOk(Unmap(w.s, op.pid, 0, n), op.pid);
    ExitTrees(w.s.tab, w.sz, op.pid);
  }

  lemma {:induction false} ExitTrees(tab: map<Node, nat>, sz: map<nat, nat>, pid: nat)
    requires TreesOk(tab.Keys, sz) && pid in sz
    ensures TreesOk((map m | m in tab && m.root != pid :: tab[m]).Keys, sz - {pid})
  {
    var tab' := map m | m in tab && m.root != pid :: tab[m];
    forall q | q in sz - {pid} ensures TreeOf(tab'.Keys, q, NPages(sz[q])) {
      assert TreeOf(tab.Keys, q, NPages(sz[q]));
      PathRoots(q, 0, NPages(sz[q]));
      assert forall n :: n in Path(q, TOP) ==> n.root == q;
    }
  }

  lemma {:induction false} PathRoots(pid: nat, lo: nat, hi: nat)
    ensures forall n :: n in PathNodes(pid, lo, hi) ==> n.root == pid
    decreases hi - lo
  {
    if lo < hi { PathRoots(pid, lo + 1, hi); }
  }

  lemma {:induction false} KernelRefines(w: World, op: Op)
    requires WorldOk(w) && Enabled(w, op) && (op.KernelAlloc? || op.KernelFree?)
    ensures Refines(w, op, Step(w, op).0, Step(w, op).1)
    ensures Adds(w.s, Step(w, op).0.s, -1)
  {
    hide PagesOk, TabOk, TreesOk, KeysOk, Adds, Contents, Users;
    OpReady(w, op);
    NothingAdded(w.s);
    Sees(w.s);
    if op.KernelAlloc? {
      if w.s.free != [] { TakePage(w.s); }
    } else {
      GivePage(w.s, op.page);
    }
  }

  /** kalloc by the kernel for itself. */
  lemma {:induction false} TakePage(s: Sys)
    requires PagesOk(s) && TabOk(s) && s.free != []
    ensures var s' := Kalloc(s).0.(kern := s.kern + multiset{s.free[0]});
            && PagesOk(s') && TabOk(s') && Adds(s, s', -1) && Contents(s') == Contents(s)
            && s'.pte == s.pte && s'.tab == s.tab
  {
    hide TabOk;
    KallocOk(s);
    OwnOk(Kalloc(s).0, s.free[0]);
    MoreKernel(s, Kalloc(s).0.(kern := s.kern + multiset{s.free[0]}), s.free[0]);
  }

  /** kfree by the kernel of a page of its own. */
  lemma {:induction false} GivePage(s: Sys, p: nat)
    requires PagesOk(s) && TabOk(s) && p in s.kern && p < |s.ref| && s.ref[p] > 0 && !IsTable(s, p)
    ensures var s' := Kfree(s, p).(kern := s.kern - multiset{p});
            && PagesOk(s') && TabOk(s') && Adds(s, s', -1) && Contents(s') == Contents(s)
            && s'.pte == s.pte && s'.tab == s.tab
  {
    hide TabOk;
    DisownOk(s, p);
    var s1 := s.(kern := s.kern - multiset{p});
    KfreeOk(s1, p);
    assert Kfree(s, p).(kern := s1.kern) == Kfree(s1, p);
    LessKernel(s, Kfree(s1, p), p);
  }

  lemma {:induction false} MoreKernel(s: Sys, s': Sys, p: nat)
    requires TabOk(s) && s'.tab == s.tab && s'.kern == s.kern + multiset{p} && |s'.ref| == |s.ref|
    ensures TabOk(s')
  {
  }

  lemma {:induction false} LessKernel(s: Sys, s': Sys, p: nat)
    requires TabOk(s) && s'.tab == s.tab && s'.kern == s.kern - multiset{p} && |s'.ref| == |s.ref| && !IsTable(s, p)
    ensures TabOk(s')
  {
    forall n | n in s.tab ensures s.tab[n] in s'.kern { assert s.tab[n] != p; }
  }

  /** Every operation on every consistent state does what it does with private copies, or is
      refused, and leaves a consistent state. */
  lemma {:induction false} StepRefines(w: World, op: Op)
    requires WorldOk(w) && Enabled(w, op)
    ensures Refines(w, op, Step(w, op).0, Step(w, op).1)
  {
    hide Refines, Step, WorldOk, Enabled;
    match op
    case Fork(_, _) => ForkRefines(w, op);
    case UserStore(_, _, _) => StoreRefines(w, op);
    case KernelStore(_, _, _) => StoreRefines(w, op);
    case Grow(_, _) => GrowRefines(w, op);
    case Shrink(_, _) => ShrinkRefines(w, op);
    case Exit(_) => ExitRefines(w, op);
    case KernelAlloc => KernelRefines(w, op);
    case KernelFree(_) => KernelRefines(w, op);
  }

  // A run: the operations so far, each enabled where it happens.
  datatype Run = Boot(w: World) | Go(before: Run, op: Op)

  ghost function At(r: Run): (w: World)
    requires RunOk(r)
    ensures WorldOk(w)
    decreases r, 1
  {
    match r
    case Boot(w) => w
    case Go(before, op) =>
      StepRefines(At(before), op);
      Step(At(before), op).0
  }

  ghost predicate RunOk(r: Run)
    decreases r, 0
  {
    match r
    case Boot(w) => WorldOk(w)
    case Go(before, op) => RunOk(before) && Enabled(At(before), op)
  }

  /** The same run in the system with eager copies: a chain of its steps, one for each
      operation, with the outcomes the kernel reported. */
  ghost predicate EagerRun(r: Run, e: Eager)
    requires RunOk(r)
  {
    match r
    case Boot(w) => e == Abs(w)
    case Go(before, op) =>
      exists e0 :: EagerRun(before, e0) && EagerNext(e0, op, Step(At(before), op).1, e)
  }

  /** Over every interleaving of forks, stores, copyouts, growth, shrinkage, exits and kernel
      allocations, what the processes see is what they would see with private copies. */
  lemma {:induction false} RunRefines(r: Run)
    requires RunOk(r)
    ensures EagerRun(r, Abs(At(r)))
  {
    if r.Go? {
      RunRefines(r.before);
      StepRefines(At(r.before), r.op);
      assert EagerRun(r.before, Abs(At(r.before)));
    }
  }

  // ---- Reads ----

  /** What a read of the process gives with eager copies: its bytes, if it may use all the pages. */
  ghost function EagerRead(e: Eager, pid: nat, va: nat, len: nat): Option<seq<int>> {
    if MayRead(e, pid, va, len)
    then Some(seq(len, i requires 0 <= i < len && MayRead(e, pid, va, len) => ByteAt(e, pid, va + i)))
    else None
  }

  ghost predicate MayRead(e: Eager, pid: nat, va: nat, len: nat) {
    forall a: nat :: va <= a < va + len ==> UserByte(e, pid, a)
  }

  ghost predicate UserByte(e: Eager, pid: nat, a: nat) {
    var k := Key(pid, Vpn(a));
    a < MAXVA && k in e.user && k in e.mem && |e.mem[k]| == PGSIZE
  }

  ghost function ByteAt(e: Eager, pid: nat, a: nat): int
    requires UserByte(e, pid, a)
  {
    e.mem[Key(pid, Vpn(a))][Off(a)]
  }

  lemma {:induction false} MayReadIff(w: World, pid: nat, va: nat, len: nat)
    requires PagesOk(w.s)
    ensures MayRead(Abs(w), pid, va, len) <==> UserRange(w.s, pid, Vpn(va), PastLast(va, len))
  {
    Sees(w.s);
    hide PagesOk, Contents;
    var e := Abs(w);
    if MayRead(e, pid, va, len) {
      forall v: nat | Vpn(va) <= v < PastLast(va, len) ensures UserAt(w.s, pid, v) {
        var a := PageByte(va, len, v);
        assert UserByte(e, pid, a);
        PageRange(va, len, a);
      }
    }
    if UserRange(w.s, pid, Vpn(va), PastLast(va, len)) {
      forall a: nat | va <= a < va + len ensures UserByte(e, pid, a) {
        PageRange(va, len, a);
        assert UserAt(w.s, pid, Vpn(a));
        ContentsAt(w.s, Key(pid, Vpn(a)));
      }
    }
  }

  lemma {:induction false} ContentsAt(s: Sys, k: Key)
    requires PagesOk(s) && k in s.pte
    ensures (forall j :: j in s.pte ==> s.pte[j].ppn < |s.page|) && k in Contents(s) && |Contents(s)[k]| == PGSIZE
  {
  }

  /** The address of a byte of page `v` among those from `va` on. */
  function PageByte(va: nat, len: nat, v: nat): (a: nat)
    requires Vpn(va) <= v < PastLast(va, len)
    ensures va <= a < va + len && Vpn(a) == v
  {
    if v == Vpn(va) then va else v * 4096
  }

  lemma {:induction false} PageRange(va: nat, len: nat, a: nat)
    requires va <= a < va + len
    ensures Vpn(va) <= Vpn(a) < PastLast(va, len) && (Vpn(a) < VPNS <==> a < MAXVA)
  {
  }

  /** copyin gives what the process would read with eager copies. */
  lemma {:induction false} ReadsRefine(w: World, pid: nat, va: nat, len: nat)
    requires PagesOk(w.s)
    ensures CopyIn(w.s, pid, va, len) == EagerRead(Abs(w), pid, va, len)
  {
    Sees(w.s);
    hide PagesOk, CopyIn, UserRange, PastLast, Off, Vpn;
    MayReadIff(w, pid, va, len);
    CopyInIff(w.s, pid, va, len);
    if MayRead(Abs(w), pid, va, len) {
      CopyInReads(w.s, pid, va, len);
      var bs, e := CopyIn(w.s, pid, va, len).value, Abs(w);
      forall i | 0 <= i < len ensures UserByte(e, pid, va + i) && bs[i] == ByteAt(e, pid, va + i) {
        var a := va + i;
        assert UserByte(e, pid, a);
        assert bs[a - va] == e.mem[Key(pid, Vpn(a))][Off(a)];
      }
      assert bs == EagerRead(e, pid, va, len).value;
    }
  }

  lemma {:induction false} SameReads(e: Eager, q: nat, e': Eager, q': nat, va: nat, len: nat)
    requires forall a: nat :: UserByte(e', q', a) <==> UserByte(e, q, a)
    requires forall a: nat :: UserByte(e, q, a) ==> ByteAt(e', q', a) == ByteAt(e, q, a)
    ensures EagerRead(e', q', va, len) == EagerRead(e, q, va, len)
  {
    hide UserByte, ByteAt;
    assert MayRead(e', q', va, len) <==> MayRead(e, q, va, len);
    if MayRead(e, q, va, len) {
      var bs, bs' := EagerRead(e, q, va, len).value, EagerRead(e', q', va, len).value;
      forall i | 0 <= i < len ensures bs'[i] == bs[i] {
        var a := va + i;
        assert UserByte(e, q, a) && bs[i] == ByteAt(e, q, a) && bs'[i] == ByteAt(e', q', a);
      }
      assert bs' == bs;
    }
  }

  lemma {:induction false} EagerForkReads(e: Eager, p: nat, c: nat, n: nat, sz': map<nat, nat>, q: nat, va: nat,
                                          len: nat)
    requires p != c && (forall v: nat :: (v < n <==> Key(p, v) in e.mem) && Key(c, v) !in e.mem && Key(c, v) !in e.user)
    ensures var e' := Eager(EagerCopy(e.mem, p, c, 0, n), sz', CopiedUsers(e.user, p, c, n));
            EagerRead(e', q, va, len) == EagerRead(e, if q == c then p else q, va, len)
  {
    var e' := Eager(EagerCopy(e.mem, p, c, 0, n), sz', CopiedUsers(e.user, p, c, n));
    var q0 := if q == c then p else q;
    EagerCopyAt(e.mem, p, c, 0, n);
    hide Vpn, Off, EagerCopy;
    forall a: nat ensures UserByte(e', q, a) <==> UserByte(e, q0, a) {
      assert Key(q, Vpn(a)) in e'.user <==> (if q == c then Vpn(a) < n else true) && Key(q0, Vpn(a)) in e.user;
    }
    forall a: nat | UserByte(e, q0, a) ensures ByteAt(e', q, a) == ByteAt(e, q0, a) {
      assert UserByte(e', q, a);
    }
    SameReads(e, q0, e', q, va, len);
  }

  /** After fork the child reads what the parent read before, and nobody else reads anything
      else. */
  lemma {:induction false} ForkReads(w: World, p: nat, c: nat, q: nat, va: nat, len: nat)
    requires WorldOk(w) && Enabled(w, Fork(p, c)) && Step(w, Fork(p, c)).1 == 1
    ensures var s' := Step(w, Fork(p, c)).0.s;
            PagesOk(s') && CopyIn(s', q, va, len) == CopyIn(w.s, if q == c then p else q, va, len)
  {
    hide PagesOk, TabOk, TreesOk, ForkSpace, CopyIn, EagerRead, Contents;
    Sees(w.s);
    ForkRefines(w, Fork(p, c));
    var w' := Step(w, Fork(p, c)).0;
    ReadsRefine(w, if q == c then p else q, va, len);
    ReadsRefine(w', q, va, len);
    EagerForkReads(Abs(w), p, c, NPages(w.sz[p]), w'.sz, q, va, len);
  }

  /** After fork the first store to a page, by the child or by the parent, is carried out if and
      only if the parent could use the page and a page is free for the copy; page 0 cannot be
      stored to at address 0. */
  lemma {:induction false} ForkStores(w: World, p: nat, c: nat, q: nat, va: nat, b: int)
    requires WorldOk(w) && Enabled(w, Fork(p, c)) && Step(w, Fork(p, c)).1 == 1 && (q == p || q == c)
    ensures var s', k := Step(w, Fork(p, c)).0.s, Key(p, Vpn(va));
            && PagesOk(s')
            && (Store(s', q, va, b).1 <==> 0 < va < MAXVA && k in w.s.pte && w.s.pte[k].u && s'.free != [])
  {
    hide PagesOk, TabOk, TreesOk, ForkSpace, Store, Vpn, Contents;
    OpReady(w, Fork(p, c));
    ForkRefines(w, Fork(p, c));
    var n, s' := NPages(w.sz[p]), Step(w, Fork(p, c)).0.s;
    ForkShows(w.s, p, c, n);
    StoreOk(s', q, va, b);
    var v := Vpn(va);
    assert Key(q, v) in s'.pte <==> v < n;
    assert Key(p, v) in w.s.pte.Keys <==> v < n;
  }

  lemma {:induction false} EagerGrowReads(e: Eager, pid: nat, lo: nat, hi: nat, sz': map<nat, nat>, va: nat, len: nat)
    requires lo <= hi < VPNS && lo * 4096 <= va && va + len <= hi * 4096
    ensures var e' := Eager(EagerGrow(e.mem, pid, lo, hi), sz', e.user + RangeKeys(pid, lo, hi));
            EagerRead(e', pid, va, len).Some? && EagerRead(e', pid, va, len).value == seq(len, _ => 0)
  {
    var e' := Eager(EagerGrow(e.mem, pid, lo, hi), sz', e.user + RangeKeys(pid, lo, hi));
    EagerGrowAt(e.mem, pid, lo, hi);
    hide EagerGrow;
    forall a: nat | va <= a < va + len ensures UserByte(e', pid, a) && ByteAt(e', pid, a) == 0 {
      assert lo <= Vpn(a) < hi;
      assert Key(pid, Vpn(a)) in RangeKeys(pid, lo, hi);
    }
  }

  /** After growth the new memory reads as zeros. */
  lemma {:induction false} GrowReads(w: World, pid: nat, newsz: nat, va: nat, len: nat)
    requires WorldOk(w) && Enabled(w, Grow(pid, newsz)) && Step(w, Grow(pid, newsz)).1 == 1
    requires NPages(w.sz[pid]) * 4096 <= va && va + len <= NPages(newsz) * 4096
    ensures var s' := Step(w, Grow(pid, newsz)).0.s;
            PagesOk(s') && CopyIn(s', pid, va, len) == Some(seq(len, _ => 0))
  {
    hide PagesOk, TabOk, TreesOk, UvmAlloc, CopyIn, EagerRead, Contents, NPages;
    GrowRefines(w, Grow(pid, newsz));
    var w' := Step(w, Grow(pid, newsz)).0;
    ReadsRefine(w', pid, va, len);
    EagerGrowReads(Abs(w), pid, NPages(w.sz[pid]), NPages(newsz), w'.sz, va, len);
  }

  /** In every reachable state. */
  lemma {:induction false} RunReads(r: Run, pid: nat, va: nat, len: nat)
    requires RunOk(r)
    ensures PagesOk(At(r).s) && EagerRun(r, Abs(At(r)))
    ensures CopyIn(At(r).s, pid, va, len) == EagerRead(Abs(At(r)), pid, va, len)
  {
    RunRefines(r);
    ReadsRefine(At(r), pid, va, len);
  }

  /** In every reachable state, what kalloc returns is in nobody's use. */
  lemma {:induction false} KallocSafe(r: Run)
    requires RunOk(r)
    ensures var s := At(r).s; PagesOk(s) && (Kalloc(s).1.Some? ==>
              var p := Kalloc(s).1.value; Mappers(s.pte, p) == {} && p !in s.kern && !IsTable(s, p))
  {
    KallocFresh(At(r).s);
  }

  // ---- Counts over runs ----

  /** A fork with enough memory to begin with and too little for the tables of its pages. */
  ghost predicate ForkLeaks(w: World, op: Op) {
    && op.Fork? && op.p in w.sz
    && |Path(op.c, TOP) - w.s.tab.Keys| <= |w.s.free| < |ChildTables(op.c, NPages(w.sz[op.p])) - w.s.tab.Keys|
  }

  /** With three or four free pages every fork of a process that has memory is such a fork: its
      page table comes to be, but not the tables for its first page. */
  lemma {:induction false} FewPagesLeak(w: World, p: nat, c: nat)
    requires WorldOk(w) && Enabled(w, Fork(p, c)) && w.sz[p] > 0 && 3 <= |w.s.free| <= 4
    ensures ForkLeaks(w, Fork(p, c))
  {
    hide Path, ChildTables, PagesOk, TabOk;
    TablesFree(w, p, c);
    NewPaths(w.s.tab.Keys, c, NPages(w.sz[p]));
  }

  lemma {:induction false} TablesFree(w: World, p: nat, c: nat)
    requires WorldOk(w) && Enabled(w, Fork(p, c)) && w.sz[p] > 0
    ensures NPages(w.sz[p]) > 0 && forall m :: m in w.s.tab ==> m.root != c
  {
  }

  /** A new process needs three tables for the top page and two more for the first page. */
  lemma {:induction false} NewPaths(have: set<Node>, c: nat, n: nat)
    requires n > 0 && forall m :: m in have ==> m.root != c
    ensures |Path(c, TOP) - have| == 3 && |ChildTables(c, n) - have| >= 5
  {
    var a, b, d, e, f := Node(c, 2, 0), Node(c, 1, 255), Node(c, 0, 0x1_FFFF), Node(c, 1, 0), Node(c, 0, 0);
    assert Path(c, TOP) == {a, b, d};
    assert Path(c, TOP) - have == {a, b, d};
    assert Path(c, 0) <= PathNodes(c, 0, n);
    CardMono({a, b, d, e, f}, ChildTables(c, n) - have);
  }

  /** Such a fork leaves one count too many; no other operation changes what is unaccounted for. */
  lemma {:induction false} StepCounts(w: World, op: Op)
    requires WorldOk(w) && Enabled(w, op)
    ensures var s' := Step(w, op).0.s;
            if ForkLeaks(w, op) then exists v: nat :: v < NPages(w.sz[op.p]) && Leaks(w.s, s', op.p, v)
              else Adds(w.s, s', -1)
  {
    hide PagesOk, TabOk, Adds, Store, CopyOut, UvmAlloc, Unmap, FreeTables, ForkSpace, ChildTables, Path;
    OpReady(w, op);
    match op
    case Fork(p, c) => ForkCounts(w.s, p, c, NPages(w.sz[p]));
    case UserStore(pid, va, b) => StoreOk(w.s, pid, va, b);
    case KernelStore(pid, va, src) =>
    case Grow(pid, newsz) =>
    case Shrink(pid, newsz) =>
    case Exit(pid) =>
      var s1 := Unmap(w.s, pid, 0, NPages(w.sz[pid]));
      UnmapTab(w.s, pid, 0, NPages(w.sz[pid]));
      FreeTablesOk(s1, pid);
      AddsBoth(w.s, s1, FreeTables(s1, pid), -1);
    case KernelAlloc => KernelRefines(w, op);
    case KernelFree(page) => KernelRefines(w, op);
  }

  /** No fork of the run leaked. */
  ghost predicate NoLeak(r: Run)
    requires RunOk(r)
  {
    r.Go? ==> NoLeak(r.before) && !ForkLeaks(At(r.before), r.op)
  }

  ghost function Booted(r: Run): World {
    match r
    case Boot(w) => w
    case Go(before, _) => Booted(before)
  }

  /** One more count that is unaccounted for is one too many for good. */
  lemma {:induction false} ExactNext(s: Sys, s': Sys, n: int)
    requires PagesOk(s) && Adds(s, s', n)
    ensures Exact(s') <==> Exact(s) && n < 0
  {
    if n >= 0 {
      assert Extra(s', n) == Extra(s, n) + 1;
    } else {
      assert forall p: nat :: Extra(s', p) == Extra(s, p);
    }
  }

  /** Over every run, each page's count is exactly the number of entries that map it and uses
      the kernel makes of it, if and only if it was so at boot and no fork of the run leaked. */
  lemma {:induction false} RunExactIff(r: Run)
    requires RunOk(r)
    ensures Exact(At(r).s) <==> Exact(Booted(r).s) && NoLeak(r)
  {
    if r.Go? {
      hide Step, Exact, Adds, WorldOk, Enabled, ForkLeaks;
      RunExactIff(r.before);
      StepCounts(At(r.before), r.op);
      StepExactIff(At(r.before), r.op);
    }
  }

  lemma {:induction false} StepExactIff(w: World, op: Op)
    requires WorldOk(w) && Enabled(w, op)
    ensures Exact(Step(w, op).0.s) <==> Exact(w.s) && !ForkLeaks(w, op)
  {
    hide Step, Exact, Adds, Enabled, TabOk, KeysOk, TreesOk;
    StepCounts(w, op);
    var s' := Step(w, op).0.s;
    if ForkLeaks(w, op) {
      var v: nat :| v < NPages(w.sz[op.p]) && Leaks(w.s, s', op.p, v);
      ExactNext(w.s, s', w.s.pte[Key(op.p, v)].ppn);
    } else {
      ExactNext(w.s, s', -1);
    }
  }

  // ---- A fork that leaks ----

  /** Process 1 has one page, on a machine of nine pages: five are its tables, one is its page
      and three are free. */
  ghost function Small(): World {
    World(Sys([1, 1, 1, 1, 1, 1, 0, 0, 0], [6, 7, 8], seq(9, _ => Junk(1)), multiset{0, 1, 2, 3, 4},
              map[Key(1, 0) := PTE(5, true, true, true, true, false)], SmallTab()), map[1 := 4096])
  }

  ghost function SmallTab(): map<Node, nat> {
    map[Node(1, 2, 0) := 0, Node(1, 1, 255) := 1, Node(1, 0, 0x1_FFFF) := 2, Node(1, 1, 0) := 3, Node(1, 0, 0) := 4]
  }

  lemma {:induction false} SmallCounts()
    ensures Exact(Small().s)
  {
    var s := Small().s;
    forall p: nat ensures Extra(s, p) == 0 {
      assert Mappers(s.pte, p) == if p == 5 then {Key(1, 0)} else {};
      assert p < 9 ==> s.ref[p] == if p < 6 then 1 else 0;
    }
  }

  lemma {:induction false} SmallFree()
    ensures FreeOk(Small().s)
  {
    var s := Small().s;
    assert s.free[0] == 6 && s.free[1] == 7 && s.free[2] == 8;
  }

  lemma {:induction false} SmallPages()
    ensures PagesOk(Small().s)
  {
    hide Extra, FreeOk, SmallTab;
    SmallCounts();
    SmallFree();
  }

  lemma {:induction false} SmallTables()
    ensures TabOk(Small().s) && TreesOk(Small().s.tab.Keys, Small().sz)
  {
    hide Path, PathNodes, Parent, SmallTab, SmallNode;
    SmallClosed();
    SmallPaths();
    var s := Small().s;
    forall n | n in s.tab ensures s.tab[n] in s.kern && s.tab[n] < |s.ref| && n.root in Small().sz { SmallPlace(n); }
    forall a, b | SameTable(s.tab, a, b) ensures a == b { SmallPlace(a); SmallPlace(b); }
  }

  /** The table in a page. */
  ghost function SmallNode(p: nat): Node {
    if p == 0 then Node(1, 2, 0) else if p == 1 then Node(1, 1, 255) else if p == 2 then Node(1, 0, 0x1_FFFF)
    else if p == 3 then Node(1, 1, 0) else Node(1, 0, 0)
  }

  lemma {:induction false} SmallPlace(n: Node)
    requires n in SmallTab()
    ensures SmallTab()[n] < 5 && n == SmallNode(SmallTab()[n]) && n.root == 1
  {
  }

  lemma {:induction false} SmallClosed()
    ensures Closed(SmallTab())
  {
    assert Parent(Node(1, 1, 255)) == Node(1, 2, 0) == Parent(Node(1, 1, 0));
    assert Parent(Node(1, 0, 0x1_FFFF)) == Node(1, 1, 255) && Parent(Node(1, 0, 0)) == Node(1, 1, 0);
  }

  lemma {:induction false} SmallPaths()
    ensures Path(1, TOP) <= SmallTab().Keys && PathNodes(1, 0, 1) <= SmallTab().Keys && NPages(4096) == 1
  {
    assert Path(1, TOP) == {Node(1, 2, 0), Node(1, 1, 255), Node(1, 0, 0x1_FFFF)};
    assert PathNodes(1, 1, 1) == {};
    assert PathNodes(1, 0, 1) == Path(1, 0) + PathNodes(1, 1, 1);
    assert Path(1, 0) == {Node(1, 2, 0), Node(1, 1, 0), Node(1, 0, 0)};
  }

  /** The machine is in order and every count is exact; after the fork one is not. */
  lemma {:induction false} SmallLeaks()
    ensures var r := Go(Boot(Small()), Fork(1, 2)); RunOk(r) && Exact(Small().s) && !Exact(At(r).s)
  {
    hide PagesOk, TabOk, TreesOk, Exact, ForkLeaks, Step;
    SmallCounts();
    SmallPages();
    SmallTables();
    var w := Small();
    assert NPages(4096) == 1 && KeysOk(w.s.pte.Keys, w.sz);
    FewPagesLeak(w, 1, 2);
    StepExactIff(w, Fork(1, 2));
    assert At(Boot(w)) == w;
  }
}
