/** The buffer cache: NBUF buffers on a circular doubly linked list in LRU order.
    Buffers are numbered 0..NBUF-1, the list head is number NBUF, and a pointer is a
    number; `prev` and `next` hold the link fields of all of them. */
module BufferCache {
  import opened Counting
  import opened LogFormat
  import opened Types

  const NBUF: nat := MAXOPBLOCKS * 3
  const HEAD: nat := NBUF
  const ROOTDEV: nat := 1

  datatype Buf = Buf(valid: bool, dev: nat, blockno: nat, refcnt: nat, locked: bool, data: Block)

  predicate HasKey(b: Buf, dev: nat, blockno: nat) {
    b.dev == dev && b.blockno == blockno
  }

  // ---- The LRU list ----

  /** The list as a walk from the head back to the head. */
  function Ring(lru: seq<nat>): (r: seq<nat>) {
    [HEAD] + lru + [HEAD]
  }

  ghost predicate Linked(prev: seq<nat>, next: seq<nat>, lru: seq<nat>) {
    && |prev| == |next| == NBUF + 1
    && Distinct(lru)
    && (forall k :: 0 <= k < |lru| ==> lru[k] < NBUF)
    && (forall j, k :: 0 <= j && k == j + 1 < |Ring(lru)| ==>
          next[Ring(lru)[j]] == Ring(lru)[k] && prev[Ring(lru)[k]] == Ring(lru)[j])
  }

  /** The two stores that take a buffer out: its neighbours now point at each other. */
  lemma {:induction false} UnlinkKeepsLinks(prev: seq<nat>, next: seq<nat>, lru: seq<nat>, k: nat)
    requires Linked(prev, next, lru) && k < |lru|
    ensures var b := lru[k];
            && next[b] <= NBUF && prev[b] <= NBUF
            && Linked(prev[next[b] := prev[b]], next[prev[b] := next[b]], Without(lru, k))
  {
    var b := lru[k];
    var r, r' := Ring(lru), Ring(Without(lru, k));
    assert r[k + 1] == b && next[b] == r[k + 2] && prev[b] == r[k];
    var prev', next' := prev[next[b] := prev[b]], next[prev[b] := next[b]];
    assert forall j :: 0 <= j < |r'| ==> r'[j] == if j <= k then r[j] else r[j + 1];
    forall i, j | 0 <= i && j == i + 1 < |r'|
      ensures next'[r'[i]] == r'[j] && prev'[r'[j]] == r'[i]
    {
      if i < k {
        assert next[r[i]] == r[j] && prev[r[j]] == r[i];
      } else if i > k {
        assert next[r[i + 1]] == r[j + 1] && prev[r[j + 1]] == r[i + 1];
      }
    }
  }

  /** The four stores that put a buffer between the head and the first buffer. */
  lemma {:induction false} PushKeepsLinks(prev: seq<nat>, next: seq<nat>, lru: seq<nat>, b: nat)
    requires Linked(prev, next, lru) && b < NBUF && b !in lru
    ensures next[HEAD] <= NBUF && next[HEAD] != b
    ensures Linked(prev[b := HEAD][next[HEAD] := b], next[b := next[HEAD]][HEAD := b], [b] + lru)
  {
    var r, r' := Ring(lru), Ring([b] + lru);
    assert r[0] == HEAD && next[HEAD] == r[1];
    var prev', next' := prev[b := HEAD][next[HEAD] := b], next[b := next[HEAD]][HEAD := b];
    assert forall j :: 2 <= j < |r'| ==> r'[j] == r[j - 1];
    assert r'[0] == HEAD && r'[1] == b;
    forall i, j | 0 <= i && j == i + 1 < |r'|
      ensures next'[r'[i]] == r'[j] && prev'[r'[j]] == r'[i]
    {
      if i >= 2 { assert next[r[i - 1]] == r[j - 1] && prev[r[j - 1]] == r[i - 1]; }
    }
  }

  /** As many distinct buffer numbers as there are buffers are all of them. */
  lemma {:induction false} ListHasAll(lru: seq<nat>, x: nat)
    requires Distinct(lru) && |lru| == NBUF && (forall k :: 0 <= k < NBUF ==> lru[k] < NBUF) && x < NBUF
    ensures exists k :: 0 <= k < NBUF && lru[k] == x
  {
    if x !in lru { Pigeonhole(lru, NBUF, x); }
  }

  // ---- What the cache says about a block of the root device ----

  ghost predicate UniqueKeys(buf: seq<Buf>) {
    forall i, j :: 0 <= i < j < |buf| && buf[i].dev != 0 ==> !HasKey(buf[j], buf[i].dev, buf[i].blockno)
  }

  /** The buffer that caches block `b`, or -1. */
  ghost function Index(buf: seq<Buf>, b: nat): (i: int)
    ensures -1 <= i < |buf|
    ensures i >= 0 ==> HasKey(buf[i], ROOTDEV, b)
    ensures i == -1 ==> forall j :: 0 <= j < |buf| ==> !HasKey(buf[j], ROOTDEV, b)
  {
    if j :| 0 <= j < |buf| && HasKey(buf[j], ROOTDEV, b) then j else -1
  }

  lemma {:induction false} IndexIs(buf: seq<Buf>, i: nat, b: nat)
    requires UniqueKeys(buf) && i < |buf| && HasKey(buf[i], ROOTDEV, b)
    ensures Index(buf, b) == i
  {
  }

  /** What a reader of block `b` gets: the cached copy, else the disk's. */
  ghost function View(buf: seq<Buf>, disk: Disk, b: nat): (r: Block)
    requires b < |disk|
  {
    var i := Index(buf, b);
    if i >= 0 && buf[i].valid then buf[i].data else disk[b]
  }

  ghost function PinOf(buf: seq<Buf>, pin: seq<nat>, b: nat): nat
    requires |pin| == |buf|
  {
    var i := Index(buf, b);
    if i >= 0 then pin[i] else 0
  }

  ghost predicate LockedKey(buf: seq<Buf>, b: nat) {
    var i := Index(buf, b);
    i >= 0 && buf[i].locked
  }

  /** An idle cached copy agrees with the disk, so recycling it loses nothing. */
  ghost predicate BufOk(b: Buf, pin: nat, disk: Disk) {
    && b.refcnt >= pin + (if b.locked then 1 else 0)
    && (b.valid ==> b.dev == ROOTDEV && b.blockno < |disk|)
    && (b.valid && !b.locked && pin == 0 ==> b.data == disk[b.blockno])
    && (b.locked || pin > 0 ==> b.valid)
  }

  ghost predicate CacheOk(buf: seq<Buf>, pin: seq<nat>, disk: Disk) {
    && |buf| == |pin| == NBUF
    && UniqueKeys(buf)
    && forall i :: 0 <= i < NBUF ==> BufOk(buf[i], pin[i], disk)
  }

  /** bget took a reference to a buffer for the key: the one that had it, or the least
      recently used one nobody references, now empty. */
  ghost predicate GotRef(buf: seq<Buf>, buf': seq<Buf>, lru: seq<nat>, dev: nat, blockno: nat, i: nat) {
    && |buf| == |buf'| == NBUF == |lru| && i < NBUF
    && (forall j :: 0 <= j < NBUF && j != i ==> buf'[j] == buf[j])
    && if HasKey(buf[i], dev, blockno)
       then buf'[i] == buf[i].(refcnt := buf[i].refcnt + 1)
       else
         && (forall j :: 0 <= j < NBUF ==> !HasKey(buf[j], dev, blockno))
         && LastIdle(buf, lru, i)
         && buf'[i] == buf[i].(valid := false, dev := dev, blockno := blockno, refcnt := 1)
  }

  /** Nobody references buffer `i`, and every buffer behind it on the list is referenced. */
  ghost predicate LastIdle(buf: seq<Buf>, lru: seq<nat>, i: nat) {
    i < |buf| && buf[i].refcnt == 0 && exists k :: 0 <= k < |lru| && lru[k] == i && AllInUse(buf, lru, k + 1)
  }

  /** Every buffer of the list from position `k` on is referenced. */
  ghost predicate AllInUse(buf: seq<Buf>, lru: seq<nat>, k: nat) {
    forall j :: k <= j < |lru| ==> lru[j] < |buf| && buf[lru[j]].refcnt > 0
  }

  /** The buffers as their users see them, by block of the root device: what a read returns,
      the pinned blocks, and the blocks whose buffer somebody holds. */
  ghost predicate Shows(buf: seq<Buf>, pin: seq<nat>, disk: Disk, view: seq<Block>, pins: multiset<nat>,
                        held: set<nat>) {
    && CacheOk(buf, pin, disk)
    && |view| == |disk|
    && (forall b: nat {:trigger View(buf, disk, b)} :: b < |disk| ==> view[b] == View(buf, disk, b))
    && (forall b: nat {:trigger PinOf(buf, pin, b)} :: pins[b] == PinOf(buf, pin, b))
    && (forall b: nat {:trigger LockedKey(buf, b)} :: b in held <==> LockedKey(buf, b))
  }

  /** Replacing a cached block's buffer by a consistent one for the same block shows at that
      block alone. */
  lemma {:induction false} Replaced(buf: seq<Buf>, pin: seq<nat>, disk: Disk, view: seq<Block>, pins: multiset<nat>,
                                    held: set<nat>, i: nat, x: Buf, p: nat)
    requires Shows(buf, pin, disk, view, pins, held) && i < |buf|
    requires buf[i].dev == ROOTDEV && HasKey(x, ROOTDEV, buf[i].blockno) && BufOk(x, p, disk) && x.valid
    ensures var b := x.blockno;
            Shows(buf[i := x], pin[i := p], disk, view[b := x.data], pins[b := p],
                  if x.locked then held + {b} else held - {b})
  {
    var buf' := buf[i := x];
    assert UniqueKeys(buf');
    forall b: nat ensures Index(buf', b) == Index(buf, b) {
      var k, k' := Index(buf, b), Index(buf', b);
      if k >= 0 { assert HasKey(buf'[k], ROOTDEV, b); IndexIs(buf', k, b); }
      if k' >= 0 { assert HasKey(buf[k'], ROOTDEV, b); IndexIs(buf, k', b); }
    }
    IndexIs(buf, i, x.blockno);
    forall b: nat | b < |disk| ensures View(buf', disk, b) == if b == x.blockno then x.data else view[b] {
      assert view[b] == View(buf, disk, b);
    }
    forall b: nat ensures PinOf(buf', pin[i := p], b) == if b == x.blockno then p else pins[b] {
      assert pins[b] == PinOf(buf, pin, b);
    }
    forall b: nat ensures LockedKey(buf', b) == if b == x.blockno then x.locked else b in held {
      assert b in held <==> LockedKey(buf, b);
    }
  }

  /** Cache transparency: taking a reference, recycling included, shows nowhere. */
  lemma {:induction false} GotRefTransparent(buf: seq<Buf>, buf': seq<Buf>, pin: seq<nat>, disk: Disk, view: seq<Block>,
                                             pins: multiset<nat>, held: set<nat>, lru: seq<nat>, dev: nat,
                                               blockno: nat, i: nat)
    requires Shows(buf, pin, disk, view, pins, held)
    requires dev != 0 && GotRef(buf, buf', lru, dev, blockno, i)
    ensures Shows(buf', pin, disk, view, pins, held)
  {
    assert UniqueKeys(buf');
    assert BufOk(buf[i], pin[i], disk);
    forall b: nat
      ensures b < |disk| ==> View(buf', disk, b) == View(buf, disk, b)
      ensures PinOf(buf', pin, b) == PinOf(buf, pin, b)
      ensures LockedKey(buf', b) == LockedKey(buf, b)
    {
      var k, k' := Index(buf, b), Index(buf', b);
      if k >= 0 && k != i { IndexIs(buf', k, b); }
      if k' >= 0 && k' != i { IndexIs(buf, k', b); }
      if k == i && k' == -1 { assert !HasKey(buf'[i], ROOTDEV, b); }
    }
  }

  /** A held buffer is what its block reads as. */
  lemma {:induction false} HeldShows(buf: seq<Buf>, pin: seq<nat>, disk: Disk, view: seq<Block>, pins: multiset<nat>,
                                     held: set<nat>, i: nat)
    requires Shows(buf, pin, disk, view, pins, held) && i < NBUF && buf[i].valid
    ensures var b := buf[i].blockno;
            && buf[i].dev == ROOTDEV && b < |disk| && view[b] == buf[i].data && pins[b] == pin[i]
            && (b in held <==> buf[i].locked) && BufOk(buf[i], pin[i], disk)
  {
    var b := buf[i].blockno;
    assert BufOk(buf[i], pin[i], disk);
    IndexIs(buf, i, b);
    assert view[b] == View(buf, disk, b) && pins[b] == PinOf(buf, pin, b) && (b in held <==> LockedKey(buf, b));
  }

  /** Without pinned blocks no reference is the log's. */
  lemma {:induction false} NoPins(buf: seq<Buf>, pin: seq<nat>, disk: Disk, view: seq<Block>, held: set<nat>)
    requires Shows(buf, pin, disk, view, multiset{}, held)
    ensures |buf| == |pin| == NBUF && forall k :: 0 <= k < NBUF ==> pin[k] == 0
  {
    forall k | 0 <= k < NBUF ensures pin[k] == 0 {
      assert BufOk(buf[k], pin[k], disk);
      if pin[k] > 0 { HeldShows(buf, pin, disk, view, multiset{}, held, k); }
    }
  }

  lemma {:induction false} KeysOf(buf: seq<Buf>, pin: seq<nat>, disk: Disk, view: seq<Block>, pins: multiset<nat>,
                                  held: set<nat>)
    requires Shows(buf, pin, disk, view, pins, held)
    ensures UniqueKeys(buf)
  {
  }

  /** What every buffer of a consistent cache satisfies. */
  lemma {:induction false} BufferShows(buf: seq<Buf>, pin: seq<nat>, disk: Disk, view: seq<Block>,
                                       pins: multiset<nat>, held: set<nat>, i: nat)
    requires Shows(buf, pin, disk, view, pins, held) && i < |buf|
    ensures |buf| == |pin| == NBUF && |view| == |disk| && BufOk(buf[i], pin[i], disk)
  {
  }

  /** The buffer that bread hands out: locked, and filled from the disk if it was empty. */
  function Filled(b: Buf, d: Block): (r: Buf) {
    b.(locked := true, valid := true, data := if b.valid then b.data else d)
  }

  /** bread shows its caller the current contents of the block and changes nothing else. */
  lemma {:induction false} BreadTransparent(buf: seq<Buf>, pin: seq<nat>, disk: Disk, view: seq<Block>,
                                            pins: multiset<nat>, held: set<nat>, blockno: nat, r: nat)
    requires Shows(buf, pin, disk, view, pins, held) && r < NBUF && blockno < |disk|
    requires HasKey(buf[r], ROOTDEV, blockno) && blockno !in held && buf[r].refcnt > pin[r]
    ensures var x := Filled(buf[r], disk[blockno]);
            && Shows(buf[r := x], pin, disk, view, pins, held + {blockno})
            && x.data == view[blockno] && pin[r] == pins[blockno]
  {
    var x := Filled(buf[r], disk[blockno]);
    assert BufOk(buf[r], pin[r], disk);
    IndexIs(buf, r, blockno);
    assert view[blockno] == View(buf, disk, blockno) && pins[blockno] == PinOf(buf, pin, blockno);
    assert !LockedKey(buf, blockno);
    Replaced(buf, pin, disk, view, pins, held, r, x, pin[r]);
    assert pin[r := pin[r]] == pin && view[blockno := x.data] == view && pins[blockno := pin[r]] == pins;
  }

  ghost predicate MovedToFront(lru: seq<nat>, lru': seq<nat>, b: nat) {
    exists k :: 0 <= k < |lru| && lru[k] == b && lru' == [b] + Without(lru, k)
  }

  /** Writing a cached buffer through to the disk changes no block's contents. */
  lemma {:induction false} WriteThrough(buf: seq<Buf>, pin: seq<nat>, disk: Disk, view: seq<Block>,
                                        pins: multiset<nat>, held: set<nat>, i: nat)
    requires Shows(buf, pin, disk, view, pins, held) && i < NBUF && buf[i].valid && buf[i].blockno < |disk|
    ensures Shows(buf, pin, disk[buf[i].blockno := buf[i].data], view, pins, held)
  {
    var disk' := disk[buf[i].blockno := buf[i].data];
    assert BufOk(buf[i], pin[i], disk);
    forall j | 0 <= j < NBUF ensures BufOk(buf[j], pin[j], disk') {
      assert BufOk(buf[j], pin[j], disk);
      assert j != i && buf[j].valid ==> buf[j].blockno != buf[i].blockno;
    }
    IndexIs(buf, i, buf[i].blockno);
    forall b: nat | b < |disk| ensures View(buf, disk', b) == View(buf, disk, b) { }
  }

  // ---- Which blocks can be read ----

  /** The buffers that nobody references. */
  ghost function IdleBufs(buf: seq<Buf>): set<nat> {
    set i: nat | i < |buf| && buf[i].refcnt == 0
  }

  /** A referenced buffer caches block `b`. */
  ghost predicate Busy(buf: seq<Buf>, b: nat) {
    exists i :: 0 <= i < |buf| && HasKey(buf[i], ROOTDEV, b) && buf[i].refcnt > 0
  }

  /** bread of block `b` finds a buffer. */
  ghost predicate Serves(buf: seq<Buf>, b: nat) {
    IdleBufs(buf) != {} || Busy(buf, b)
  }

  lemma {:induction false} ServesIs(buf: seq<Buf>, b: nat)
    ensures Serves(buf, b) <==> Index(buf, b) >= 0 || exists i :: 0 <= i < |buf| && buf[i].refcnt == 0
  {
    var i := Index(buf, b);
    if i >= 0 { assert buf[i].refcnt == 0 ==> i in IdleBufs(buf); }
    if j :| 0 <= j < |buf| && buf[j].refcnt == 0 { assert j in IdleBufs(buf); }
  }

  /** One more reference to each buffer in `at`, and a referenced buffer stays with its block. */
  ghost predicate Took(buf: seq<Buf>, buf': seq<Buf>, at: set<nat>) {
    && |buf'| == |buf|
    && forall k :: 0 <= k < |buf| ==>
         && buf'[k].refcnt == buf[k].refcnt + (if k in at then 1 else 0)
         && (buf[k].refcnt > 0 ==> HasKey(buf'[k], buf[k].dev, buf[k].blockno))
  }

  /** The references that are not the log's are the same, and their buffers stay with their
      blocks. */
  ghost predicate Kept(buf: seq<Buf>, pin: seq<nat>, buf': seq<Buf>, pin': seq<nat>) {
    && |buf| == |pin| == |buf'| == |pin'|
    && forall k :: 0 <= k < |buf| ==>
         && buf'[k].refcnt - pin'[k] == buf[k].refcnt - pin[k]
         && (buf[k].refcnt > pin[k] ==> HasKey(buf'[k], buf[k].dev, buf[k].blockno))
  }

  /** What could be read can still be read. */
  ghost predicate ServesMore(buf: seq<Buf>, buf': seq<Buf>) {
    forall b: nat :: Serves(buf, b) ==> Serves(buf', b)
  }

  lemma {:induction false} KeptTwice(buf: seq<Buf>, pin: seq<nat>, buf1: seq<Buf>, pin1: seq<nat>, buf2: seq<Buf>,
                                     pin2: seq<nat>)
    requires Kept(buf, pin, buf1, pin1) && Kept(buf1, pin1, buf2, pin2)
    ensures Kept(buf, pin, buf2, pin2)
  {
  }

  lemma {:induction false} TookTwice(buf: seq<Buf>, buf1: seq<Buf>, buf2: seq<Buf>, i: nat, j: nat)
    requires Took(buf, buf1, {i}) && Took(buf1, buf2, {j}) && i != j
    ensures Took(buf, buf2, {i, j})
  {
  }

  /** The references are given back. */
  lemma {:induction false} GaveBack(buf: seq<Buf>, buf1: seq<Buf>, buf2: seq<Buf>, at: set<nat>)
    requires Took(buf, buf1, at) && |buf2| == |buf1|
    requires forall k :: 0 <= k < |buf1| ==>
               && buf2[k].refcnt == buf1[k].refcnt - (if k in at then 1 else 0)
               && HasKey(buf2[k], buf1[k].dev, buf1[k].blockno)
    ensures Took(buf, buf2, {})
  {
  }

  /** With the same references the same blocks can be read. */
  lemma {:induction false} SameServes(buf: seq<Buf>, buf': seq<Buf>)
    requires Took(buf, buf', {})
    ensures ServesMore(buf, buf') && ServesMore(buf', buf) && IdleBufs(buf') == IdleBufs(buf)
    ensures forall b: nat :: Busy(buf', b) <==> Busy(buf, b)
  {
    assert IdleBufs(buf') == IdleBufs(buf);
    forall b: nat ensures Busy(buf', b) <==> Busy(buf, b) {
      if i :| 0 <= i < |buf| && HasKey(buf[i], ROOTDEV, b) && buf[i].refcnt > 0 { assert HasKey(buf'[i], ROOTDEV, b); }
      if i :| 0 <= i < |buf| && HasKey(buf'[i], ROOTDEV, b) && buf'[i].refcnt > 0 { assert HasKey(buf[i], ROOTDEV, b); }
    }
  }

  /** With some references fewer, and no other block in a buffer that was referenced, more can
      be read. */
  lemma {:induction false} FewerServe(buf: seq<Buf>, buf': seq<Buf>)
    requires |buf'| == |buf| && forall k :: 0 <= k < |buf| ==>
               buf'[k].refcnt <= buf[k].refcnt && (buf[k].refcnt > 0 ==> HasKey(buf'[k], buf[k].dev, buf[k].blockno))
    ensures ServesMore(buf, buf')
  {
    assert IdleBufs(buf) <= IdleBufs(buf');
    forall b: nat | Busy(buf, b) ensures Serves(buf', b) {
      var i :| 0 <= i < |buf| && HasKey(buf[i], ROOTDEV, b) && buf[i].refcnt > 0;
      assert HasKey(buf'[i], ROOTDEV, b) && (buf'[i].refcnt == 0 ==> i in IdleBufs(buf'));
    }
  }

  /** A reference to the buffer of block `b` takes an idle buffer exactly if the block was in no
      referenced buffer. */
  lemma {:induction false} TookOne(buf: seq<Buf>, buf': seq<Buf>, i: nat, b: nat)
    requires Took(buf, buf', {i}) && UniqueKeys(buf') && i < |buf| && HasKey(buf'[i], ROOTDEV, b)
    ensures forall x: nat :: Busy(buf', x) <==> Busy(buf, x) || x == b
    ensures |IdleBufs(buf')| == |IdleBufs(buf)| - if Busy(buf, b) then 0 else 1
  {
    forall x: nat ensures Busy(buf', x) <==> Busy(buf, x) || x == b {
      if k :| 0 <= k < |buf| && HasKey(buf[k], ROOTDEV, x) && buf[k].refcnt > 0 { assert HasKey(buf'[k], ROOTDEV, x); }
      if k :| 0 <= k < |buf| && HasKey(buf'[k], ROOTDEV, x) && buf'[k].refcnt > 0 && k != i {
        assert HasKey(buf[k], ROOTDEV, x);
      }
    }
    if k :| 0 <= k < |buf| && HasKey(buf[k], ROOTDEV, b) && buf[k].refcnt > 0 {
      assert HasKey(buf'[k], ROOTDEV, b) && k == i;
      assert IdleBufs(buf') == IdleBufs(buf);
    } else {
      assert buf[i].refcnt == 0;
      assert IdleBufs(buf') == IdleBufs(buf) - {i} && i in IdleBufs(buf);
    }
  }

  class Bcache {
    var buf: seq<Buf>
    var prev: seq<nat>
    var next: seq<nat>
    var disk: Disk
    ghost var lru: seq<nat>      // the buffers from most to least recently released
    ghost var pin: seq<nat>      // how many of a buffer's references are the log's
    ghost var trace: Trace       // every block write so far

    // The cache as its users see it, by block number:
    ghost var view: seq<Block>   // what a read returns
    ghost var pins: multiset<nat> // pinned blocks
    ghost var held: set<nat>     // blocks whose buffer somebody holds

    ghost predicate Valid()
      reads this
    {
      && |lru| == |buf| == |pin| == NBUF && |view| == |disk|
      && Linked(prev, next, lru)
      && Shows(buf, pin, disk, view, pins, held)
    }

    /** binit: an empty cache over the given disk. */
    constructor (d: Disk)
      ensures Valid() && disk == d && trace == Boot
      ensures Idle() && view == d && held == {} && pins == multiset{}
      ensures forall k :: 0 <= k < NBUF ==> lru[k] == NBUF - 1 - k
    {
      disk := d;
      trace := Boot;
      buf := seq(NBUF, _ => Buf(false, 0, 0, 0, false, Block(seq(WORDS, _ => 0))));
      pin := seq(NBUF, _ => 0);
      view, held, pins := d, {}, multiset{};
      lru := [];
      prev := seq(NBUF + 1, _ => HEAD);
      next := seq(NBUF + 1, _ => HEAD);
      new;
      for b := 0 to NBUF
        invariant Linked(prev, next, lru) && |lru| == b
        invariant forall k :: 0 <= k < b ==> lru[k] == b - 1 - k
        modifies this`prev, this`next, this`lru
      {
        PushFront(b);
      }
    }

    /** The disk, what reads return, and the history of block writes. */
    ghost function State(): (Disk, seq<Block>, Trace)
      reads this
    {
      (disk, view, trace)
    }

    /** Nobody references any buffer. */
    ghost predicate Idle()
      reads this
    {
      forall i :: 0 <= i < |buf| ==> buf[i].refcnt == 0
    }

    /** A block that nobody holds or pins reads as the disk has it. */
    lemma {:induction false} CleanView(b: nat)
      requires Valid() && b < |disk| && b !in held && b !in pins
      ensures view[b] == disk[b]
    {
      var i := Index(buf, b);
      assert view[b] == View(buf, disk, b) && pins[b] == PinOf(buf, pin, b) && !LockedKey(buf, b);
      if i >= 0 { assert BufOk(buf[i], pin[i], disk); }
    }

    /** A pinned block is in a referenced buffer. */
    lemma {:induction false} PinnedBusy(b: nat)
      requires Valid() && b in pins
      ensures Busy(buf, b) && Serves(buf, b)
    {
      var i := Index(buf, b);
      assert pins[b] == PinOf(buf, pin, b);
      assert BufOk(buf[i], pin[i], disk);
    }

    method PushFront(b: nat)
      requires Linked(prev, next, lru) && b < NBUF && b !in lru
      modifies this`prev, this`next, this`lru
      ensures lru == [b] + old(lru)
      ensures Linked(prev, next, lru)
    {
      PushKeepsLinks(prev, next, lru, b);
      next := next[b := next[HEAD]];
      prev := prev[b := HEAD];
      prev := prev[next[HEAD] := b];
      next := next[HEAD := b];
      lru := [b] + lru;
    }

    /** The first loop of bget: from the front of the list, a buffer with the key, or the head. */
    method FindKey(dev: nat, blockno: nat) returns (b: nat)
      requires Linked(prev, next, lru) && |lru| == |buf| == NBUF
      ensures b < NBUF ==> HasKey(buf[b], dev, blockno)
      ensures b >= NBUF ==> b == HEAD && forall i :: 0 <= i < NBUF ==> !HasKey(buf[i], dev, blockno)
    {
      b := next[HEAD];
      ghost var k := 0;
      assert Ring(lru)[0] == HEAD && Ring(lru)[1] == lru[0];
      while b != HEAD
        invariant 0 <= k <= NBUF && b == Ring(lru)[k + 1]
        invariant forall j :: 0 <= j < k ==> !HasKey(buf[lru[j]], dev, blockno)
        decreases NBUF - k
      {
        assert b == lru[k];
        if HasKey(buf[b], dev, blockno) { return; }
        assert next[Ring(lru)[k + 1]] == Ring(lru)[k + 2];
        b := next[b];
        k := k + 1;
      }
      forall i | 0 <= i < NBUF ensures !HasKey(buf[i], dev, blockno) { ListHasAll(lru, i); }
    }

    /** The second loop of bget: from the back of the list, a buffer nobody references. */
    method FindIdle() returns (b: nat)
      requires Linked(prev, next, lru) && |lru| == |buf| == NBUF
      ensures b < NBUF ==> LastIdle(buf, lru, b)
      ensures b >= NBUF ==> b == HEAD && forall i :: 0 <= i < NBUF ==> buf[i].refcnt > 0
    {
      b := prev[HEAD];
      ghost var k := NBUF;
      assert Ring(lru)[NBUF] == lru[NBUF - 1] && prev[Ring(lru)[NBUF + 1]] == Ring(lru)[NBUF];
      while b != HEAD
        invariant 0 <= k <= NBUF && b == Ring(lru)[k]
        invariant AllInUse(buf, lru, k)
        decreases k
      {
        assert b == lru[k - 1];
        if buf[b].refcnt == 0 { return; }
        assert prev[Ring(lru)[k]] == Ring(lru)[k - 1];
        b := prev[b];
        k := k - 1;
      }
      forall i | 0 <= i < NBUF ensures buf[i].refcnt > 0 { ListHasAll(lru, i); }
    }

    /** bget up to the release of bcache.lock; -1 stands for the panic "no buffers". */
    method Bget(dev: nat, blockno: nat) returns (r: int)
      requires Valid() && dev != 0
      modifies this`buf
      ensures Valid()
      ensures r == -1 <==> (forall i :: 0 <= i < NBUF ==> !HasKey(old(buf)[i], dev, blockno) && old(buf)[i].refcnt > 0)
      ensures r == -1 ==> buf == old(buf)
      ensures r != -1 ==> 0 <= r < NBUF && GotRef(old(buf), buf, lru, dev, blockno, r)
    {
      hide Linked, Shows;
      var b := FindKey(dev, blockno);
      if b != HEAD {
        buf := buf[b := buf[b].(refcnt := buf[b].refcnt + 1)];
        GotRefTransparent(old(buf), buf, pin, disk, view, pins, held, lru, dev, blockno, b);
        return b;
      }
      b := FindIdle();
      if b != HEAD {
        buf := buf[b := buf[b].(dev := dev, blockno := blockno, valid := false, refcnt := 1)];
        GotRefTransparent(old(buf), buf, pin, disk, view, pins, held, lru, dev, blockno, b);
        return b;
      }
      return -1;
    }

    /** bread; the buffer's sleep lock is free when the call gets it. */
    method Bread(blockno: nat) returns (r: int)
      requires Valid() && blockno < |disk| && blockno !in held
      modifies this`buf, this`held
      ensures Valid()
      ensures r == -1 <==> Index(old(buf), blockno) == -1 && forall i :: 0 <= i < NBUF ==> old(buf)[i].refcnt > 0
      ensures r == -1 ==> buf == old(buf) && held == old(held)
      ensures r != -1 ==> 0 <= r < NBUF && held == old(held) + {blockno}
      ensures r != -1 ==> HasKey(buf[r], ROOTDEV, blockno) && buf[r].valid && buf[r].locked
      ensures r != -1 ==> buf[r].data == view[blockno] && pin[r] == pins[blockno]
      ensures r != -1 ==> buf[r].refcnt == if HasKey(old(buf)[r], ROOTDEV, blockno) then old(buf)[r].refcnt + 1 else 1
      ensures r != -1 ==> !old(buf)[r].locked && buf == old(buf)[r := buf[r]] && Took(old(buf), buf, {r})
      ensures r != -1 <==> Serves(old(buf), blockno)
    {
      hide Linked, Shows, Serves;
      ServesIs(buf, blockno);
      r := Bget(ROOTDEV, blockno);
      if r == -1 { return; }
      BufferShows(old(buf), pin, disk, view, pins, held, r);
      if old(buf)[r].valid { HeldShows(old(buf), pin, disk, view, pins, held, r); }
      BreadTransparent(buf, pin, disk, view, pins, held, blockno, r);
      ghost var got := buf;
      buf := buf[r := buf[r].(locked := true)];
      if !buf[r].valid {
        buf := buf[r := buf[r].(data := disk[blockno], valid := true)];
      }
      assert buf == got[r := Filled(got[r], disk[blockno])];
      held := held + {blockno};
    }

    /** Two breads in a row, of blocks `a` and `b`; false is the panic in one of them. */
    method BreadTwo(a: nat, b: nat) returns (ok: bool, i: nat, j: nat)
      requires Valid() && a < |disk| && b < |disk| && a != b && a !in held && b !in held
      modifies this`buf, this`held
      ensures Valid() && i < NBUF && j < NBUF
      ensures ok ==> i != j && held == old(held) + {a, b}
      ensures ok ==> HasKey(buf[i], ROOTDEV, a) && buf[i].valid && buf[i].locked && buf[i].data == view[a]
                     && pin[i] == pins[a]
      ensures ok ==> HasKey(buf[j], ROOTDEV, b) && buf[j].valid && buf[j].locked && buf[j].data == view[b]
                     && pin[j] == pins[b]
      ensures ok ==> Took(old(buf), buf, {i, j})
      ensures b in pins ==> (ok <==> Serves(old(buf), a))
      ensures old(Idle()) ==> ok && forall k :: 0 <= k < NBUF ==> buf[k].refcnt == if k == i || k == j then 1 else 0
    {
      hide Linked, Shows, Serves, Busy, Took, Index;
      i, j := 0, 0;
      assert Idle() ==> buf[0].refcnt == 0;
      if b in pins { PinnedBusy(b); }
      var x := Bread(a);
      if x == -1 { return false, 0, 0; }
      i := x;
      HeldShows(buf, pin, disk, view, pins, held, i);
      assert old(Idle()) ==> buf[if i == 0 then 1 else 0].refcnt == 0;
      if b in pins { PinnedBusy(b); }
      ghost var buf1 := buf;
      x := Bread(b);
      if x == -1 { return false, 0, 0; }
      TookTwice(old(buf), buf1, buf, i, x);
      return true, i, x;
    }

    /** Two brelses in a row. */
    method BrelseTwo(i: nat, j: nat)
      requires Valid() && i < NBUF && j < NBUF && i != j
      requires buf[i].locked && (pin[i] > 0 || buf[i].data == disk[buf[i].blockno])
      requires buf[j].locked && (pin[j] > 0 || buf[j].data == disk[buf[j].blockno])
      modifies this`buf, this`prev, this`next, this`lru, this`held
      ensures Valid() && held == old(held) - {buf[i].blockno, buf[j].blockno}
      ensures forall k :: 0 <= k < NBUF ==> buf[k] == if k == i || k == j
                then old(buf)[k].(locked := false, refcnt := old(buf)[k].refcnt - 1) else old(buf)[k]
    {
      hide Linked, Shows;
      BufferShows(buf, pin, disk, view, pins, held, i);
      BufferShows(buf, pin, disk, view, pins, held, j);
      HeldShows(buf, pin, disk, view, pins, held, i);
      HeldShows(buf, pin, disk, view, pins, held, j);
      Brelse(i);
      Brelse(j);
    }

    /** The holder of the buffer stores into its data. */
    method Fill(i: nat, data: Block)
      requires Valid() && i < NBUF && buf[i].locked
      modifies this`buf, this`view
      ensures Valid() && buf == old(buf)[i := old(buf)[i].(data := data)]
      ensures buf[i].blockno < |disk| && view == old(view)[buf[i].blockno := data]
    {
      hide Linked, Shows;
      BufferShows(buf, pin, disk, view, pins, held, i);
      HeldShows(buf, pin, disk, view, pins, held, i);
      Replaced(buf, pin, disk, view, pins, held, i, buf[i].(data := data), pin[i]);
      assert pin[i := pin[i]] == pin && pins[buf[i].blockno := pin[i]] == pins && held + {buf[i].blockno} == held;
      buf := buf[i := buf[i].(data := data)];
      view := view[buf[i].blockno := data];
    }

    /** bwrite: one atomic disk write. */
    method Bwrite(i: nat)
      requires Valid() && i < NBUF && buf[i].locked
      modifies this`disk, this`trace
      ensures Valid() && buf[i].blockno < old(|disk|) && disk == old(disk)[buf[i].blockno := buf[i].data]
      ensures trace == Then(old(trace), Write(buf[i].blockno, buf[i].data))
    {
      hide Linked, Shows;
      BufferShows(buf, pin, disk, view, pins, held, i);
      WriteThrough(buf, pin, disk, view, pins, held, i);
      disk := disk[buf[i].blockno := buf[i].data];
      trace := Then(trace, Write(buf[i].blockno, buf[i].data));
    }

    /** brelse.  The discipline of the callers: a changed buffer is pinned by the log or
        has been written before it is released. */
    method Brelse(i: nat)
      requires Valid() && i < NBUF && buf[i].locked
      requires pin[i] > 0 || buf[i].data == disk[buf[i].blockno]
      modifies this`buf, this`prev, this`next, this`lru, this`held
      ensures Valid()
      ensures buf == old(buf)[i := old(buf)[i].(locked := false, refcnt := old(buf)[i].refcnt - 1)]
      ensures if buf[i].refcnt == 0 then MovedToFront(old(lru), lru, i) else lru == old(lru)
      ensures held == old(held) - {buf[i].blockno}
    {
      hide Linked, Shows;
      BufferShows(buf, pin, disk, view, pins, held, i);
      HeldShows(buf, pin, disk, view, pins, held, i);
      var x := buf[i].(locked := false, refcnt := buf[i].refcnt - 1);
      Replaced(buf, pin, disk, view, pins, held, i, x, pin[i]);
      assert pin[i := pin[i]] == pin && pins[buf[i].blockno := pin[i]] == pins
        && view[buf[i].blockno := x.data] == view;
      buf := buf[i := x];
      held := held - {buf[i].blockno};
      if buf[i].refcnt == 0 {
        MoveToFront(i);
      }
    }

    method MoveToFront(b: nat)
      requires |lru| == NBUF && Linked(prev, next, lru) && b < NBUF
      modifies this`prev, this`next, this`lru
      ensures Linked(prev, next, lru) && |lru| == NBUF
      ensures MovedToFront(old(lru), lru, b)
    {
      ListHasAll(lru, b);
      ghost var k :| 0 <= k < NBUF && lru[k] == b;
      UnlinkKeepsLinks(prev, next, lru, k);
      prev := prev[next[b] := prev[b]];
      next := next[prev[b] := next[b]];
      lru := Without(lru, k);
      PushFront(b);
    }

    method Bpin(i: nat)
      requires Valid() && i < NBUF && buf[i].locked
      modifies this`buf, this`pin, this`pins
      ensures Valid() && buf == old(buf)[i := old(buf)[i].(refcnt := old(buf)[i].refcnt + 1)]
      ensures pin == old(pin)[i := old(pin)[i] + 1] && pins == old(pins) + multiset{buf[i].blockno}
    {
      hide Linked, Shows;
      BufferShows(buf, pin, disk, view, pins, held, i);
      HeldShows(buf, pin, disk, view, pins, held, i);
      var x := buf[i].(refcnt := buf[i].refcnt + 1);
      Replaced(buf, pin, disk, view, pins, held, i, x, pin[i] + 1);
      assert pins[x.blockno := pin[i] + 1] == pins + multiset{x.blockno};
      assert view[x.blockno := x.data] == view && held + {x.blockno} == held;
      buf := buf[i := x];
      pin := pin[i := pin[i] + 1];
      pins := pins + multiset{x.blockno};
    }

    method Bunpin(i: nat)
      requires Valid() && i < NBUF && buf[i].locked && pin[i] > 0
      modifies this`buf, this`pin, this`pins
      ensures Valid() && buf == old(buf)[i := old(buf)[i].(refcnt := old(buf)[i].refcnt - 1)]
      ensures pin == old(pin)[i := old(pin)[i] - 1] && pins == old(pins) - multiset{buf[i].blockno}
    {
      hide Linked, Shows;
      BufferShows(buf, pin, disk, view, pins, held, i);
      HeldShows(buf, pin, disk, view, pins, held, i);
      var x := buf[i].(refcnt := buf[i].refcnt - 1);
      Replaced(buf, pin, disk, view, pins, held, i, x, pin[i] - 1);
      assert pins[x.blockno := pin[i] - 1] == pins - multiset{x.blockno};
      assert view[x.blockno := x.data] == view && held + {x.blockno} == held;
      buf := buf[i := x];
      pin := pin[i := pin[i] - 1];
      pins := pins - multiset{x.blockno};
    }
  }
}
