/** The split virtqueue of the disk driver (sections 2.6 and 5.2 of VIRTIO 1.1): descriptors,
    the available ring and the used ring, shared by the driver and the device.  Every method
    of Disk is one step; the driver's steps run under vdisk_lock.  The device knows of a
    request only what the driver has written into memory. */
module Virtio {
  import opened Types
  import opened Counting

  const NUM: nat := 8
  const IDX: nat := 0x1_0000      // the ring indices are uint16
  const BSIZE: nat := 1024

  /** An address in a descriptor: disk.ops[i], the data of a buffer or disk.info[i].status. */
  datatype Addr = Null | OpAt(i: nat) | DataOf(b: nat) | StatusAt(i: nat)

  /** A descriptor, with VRING_DESC_F_NEXT and VRING_DESC_F_WRITE as booleans. */
  datatype Desc = Desc(addr: Addr, len: nat, chained: bool, devWrites: bool, next: nat)

  /** struct virtio_blk_req: whether type is VIRTIO_BLK_T_OUT, and the sector. */
  datatype Op = Op(out: bool, sector: nat)

  datatype Info = Info(b: int, status: nat)   // b is -1 for null

  /** A request: its number, the descriptors after the head, the buffer, the block and the
      direction. */
  datatype Request = Request(id: nat, mid: nat, last: nat, buf: nat, blockno: nat, write: bool)

  datatype Stage = InAvail | InDevice | InUsed | Done

  /** The memory of the driver and the device outside the rings. */
  datatype Mem = Mem(info: seq<Info>, ops: seq<Op>, busy: set<nat>, data: map<nat, seq<Byte>>)

  /** The requests in flight and where they are. */
  datatype Track = Track(
    own: map<nat, nat>,        // the request a descriptor belongs to
    req: map<nat, Request>,    // by head descriptor
    stage: map<nat, Stage>,
    got: map<nat, seq<Byte>>,  // the bytes that a completed request has moved
    holder: map<nat, nat>,     // the request a buffer is in
    at: map<nat, nat>,         // the head of a request
    finished: set<nat>,
    n: nat,                    // requests submitted
    nf: nat,                   // requests fetched by the device
    nc: nat,                   // completions consumed by the driver
    qa: seq<nat>,              // heads in the available ring
    qu: seq<nat>)              // heads in the used ring

  // ---- Blocks and sectors ----

  /** The sector of a block; the product is an unsigned int of 32 bits. */
  function Sector(blockno: nat): nat {
    blockno * 2 % UINT
  }

  /** Where the device finds the bytes of a block. */
  function Place(blockno: nat): nat {
    512 * Sector(blockno)
  }

  /** `bytes` stored at position `a` of the disk. */
  function Stored(disk: seq<Byte>, a: nat, bytes: seq<Byte>): seq<Byte>
    requires a + |bytes| <= |disk|
  {
    disk[..a] + bytes + disk[a + |bytes|..]
  }

  /** The driver addresses the block it is asked for exactly for block numbers below 2^31. */
  lemma {:induction false} PlaceIff(blockno: nat)
    requires blockno < UINT
    ensures Place(blockno) == BSIZE * blockno <==> blockno < 0x8000_0000
  {
  }

  /** A block write is read back, and leaves every other block alone. */
  lemma {:induction false} StoredReads(disk: seq<Byte>, k: nat, bytes: seq<Byte>, j: nat)
    requires |bytes| == BSIZE && k < 0x8000_0000 && j < 0x8000_0000
    requires Place(k) + BSIZE <= |disk| && Place(j) + BSIZE <= |disk|
    ensures Stored(disk, Place(k), bytes)[Place(j)..Place(j) + BSIZE]
         == if j == k then bytes else disk[Place(j)..Place(j) + BSIZE]
  {
    PlaceIff(k);
    PlaceIff(j);
    StoredApart(disk, Place(k), bytes, Place(j));
  }

  lemma {:induction false} StoredApart(disk: seq<Byte>, a: nat, bytes: seq<Byte>, c: nat)
    requires |bytes| == BSIZE && a + BSIZE <= |disk| && c + BSIZE <= |disk|
    requires a == c || a + BSIZE <= c || c + BSIZE <= a
    ensures Stored(disk, a, bytes)[c..c + BSIZE] == if a == c then bytes else disk[c..c + BSIZE]
  {
  }

  // ---- Descriptors ----

  ghost predicate InChain(h: nat, r: Request, d: nat) {
    d == h || d == r.mid || d == r.last
  }

  function HeadDesc(h: nat, r: Request): Desc {
    Desc(OpAt(h), 16, true, false, r.mid)
  }

  function DataDesc(r: Request): Desc {
    Desc(DataOf(r.buf), BSIZE, true, !r.write, r.last)
  }

  function StatusDesc(h: nat): Desc {
    Desc(StatusAt(h), 1, false, true, 0)
  }

  /** The three descriptors of a request form a chain and belong to it alone. */
  ghost predicate ChainOk(desc: seq<Desc>, own: map<nat, nat>, h: nat, r: Request) {
    && h < |desc| == NUM && r.mid < NUM && r.last < NUM && h != r.mid && h != r.last && r.mid != r.last
    && h in own && own[h] == h && r.mid in own && own[r.mid] == h && r.last in own && own[r.last] == h
    && desc[h] == HeadDesc(h, r) && desc[r.mid] == DataDesc(r) && desc[r.last] == StatusDesc(h)
  }

  /** free[] marks exactly the descriptors that no request has. */
  ghost predicate DescsOk(desc: seq<Desc>, free: seq<bool>, own: map<nat, nat>, req: map<nat, Request>) {
    && |desc| == |free| == NUM
    && (forall h :: h in req ==> ChainOk(desc, own, h, req[h]))
    && (forall d :: 0 <= d < NUM ==> (free[d] <==> d !in own))
    && (forall d :: d in own ==> d < NUM && own[d] in req && InChain(own[d], req[own[d]], d))
  }

  lemma {:induction false} DescsSize(desc: seq<Desc>, free: seq<bool>, own: map<nat, nat>, req: map<nat, Request>)
    requires DescsOk(desc, free, own, req)
    ensures |desc| == |free| == NUM
  {
  }

  lemma {:induction false} DescsChain(desc: seq<Desc>, free: seq<bool>, own: map<nat, nat>,
                                      req: map<nat, Request>, h: nat)
    requires DescsOk(desc, free, own, req) && h in req
    ensures ChainOk(desc, own, h, req[h])
  {
  }

  /** Descriptors that no request has may hold anything. */
  lemma {:induction false} SameDescs(desc: seq<Desc>, free: seq<bool>, own: map<nat, nat>,
                                     req: map<nat, Request>, desc': seq<Desc>)
    requires DescsOk(desc, free, own, req) && |desc'| == NUM
    requires forall d :: 0 <= d < NUM && !free[d] ==> desc'[d] == desc[d]
    ensures DescsOk(desc', free, own, req)
  {
    forall h | h in req ensures ChainOk(desc', own, h, req[h]) { assert ChainOk(desc, own, h, req[h]); }
  }

  /** The descriptors once those of a request are formatted. */
  function Formatted(desc: seq<Desc>, h: nat, r: Request): (s: seq<Desc>)
    requires |desc| == NUM && h < NUM && r.mid < NUM && r.last < NUM
    ensures |s| == NUM
  {
    desc[h := HeadDesc(h, r)][r.mid := DataDesc(r)][r.last := StatusDesc(h)]
  }

  function Owned(own: map<nat, nat>, h: nat, r: Request): map<nat, nat> {
    own[h := h][r.mid := h][r.last := h]
  }

  ghost predicate Apart(h: nat, r: Request) {
    h < NUM && r.mid < NUM && r.last < NUM && h != r.mid && h != r.last && r.mid != r.last
  }

  lemma {:induction false} SubmitDescs(desc: seq<Desc>, free: seq<bool>, own: map<nat, nat>,
                                       req: map<nat, Request>, h: nat, r: Request, free': seq<bool>)
    requires DescsOk(desc, free, own, req) && |free'| == NUM
    requires Apart(h, r) && free[h] && free[r.mid] && free[r.last]
    requires forall d :: 0 <= d < NUM ==> free'[d] == (free[d] && !InChain(h, r, d))
    ensures h !in req && DescsOk(Formatted(desc, h, r), free', Owned(own, h, r), req[h := r])
  {
    assert h in req ==> ChainOk(desc, own, h, req[h]);
    forall x | x in req ensures ChainOk(Formatted(desc, h, r), Owned(own, h, r), x, req[x]) {
      OtherChain(desc, own, x, req[x], h, r);
    }
    OwnChain(desc, own, h, r);
    hide HeadDesc, DataDesc, StatusDesc, Formatted, ChainOk;
  }

  lemma {:induction false} OwnChain(desc: seq<Desc>, own: map<nat, nat>, h: nat, r: Request)
    requires |desc| == NUM && Apart(h, r)
    ensures ChainOk(Formatted(desc, h, r), Owned(own, h, r), h, r)
  {
    hide HeadDesc, DataDesc, StatusDesc;
  }

  lemma {:induction false} OtherChain(desc: seq<Desc>, own: map<nat, nat>, x: nat, rx: Request, h: nat, r: Request)
    requires ChainOk(desc, own, x, rx) && h < NUM && r.mid < NUM && r.last < NUM
    requires h !in own && r.mid !in own && r.last !in own
    ensures ChainOk(Formatted(desc, h, r), Owned(own, h, r), x, rx)
  {
    hide HeadDesc, DataDesc, StatusDesc;
  }

  lemma {:induction false} FinishDescs(desc: seq<Desc>, free: seq<bool>, own: map<nat, nat>,
                                       req: map<nat, Request>, h: nat)
    requires DescsOk(desc, free, own, req) && h in req
    ensures var r := req[h];
            && ChainOk(desc, own, h, r) && !free[h] && !free[r.mid] && !free[r.last]
            && DescsOk(desc, free[h := true][r.mid := true][r.last := true], own - {h, r.mid, r.last}, req - {h})
  {
    hide HeadDesc, DataDesc, StatusDesc;
    var r, own', req' := req[h], own - {h, req[h].mid, req[h].last}, req - {h};
    assert ChainOk(desc, own, h, r);
    forall x | x in req' ensures ChainOk(desc, own', x, req'[x]) { assert ChainOk(desc, own, x, req[x]); }
    forall d | d in own' ensures own'[d] in req' { assert own[d] == h ==> InChain(h, r, d); }
  }

  // ---- Rings ----

  /** From position `at` on, the ring holds the queue `q`. */
  ghost predicate RingOk(ring: seq<nat>, at: nat, q: seq<nat>) {
    && |ring| == NUM && |q| <= NUM
    && forall j :: 0 <= j < |q| ==> ring[(at + j) % 8] == q[j]
  }

  /** `q` lists the requests of one stage, each once. */
  ghost predicate Lists(q: seq<nat>, stage: map<nat, Stage>, s: Stage) {
    && Distinct(q)
    && (forall j :: 0 <= j < |q| ==> q[j] in stage && stage[q[j]] == s)
    && (forall h :: h in stage && stage[h] == s ==> h in q)
  }

  /** Adding to the ring overwrites no entry that is still queued. */
  lemma {:induction false} RingAdd(ring: seq<nat>, at: nat, q: seq<nat>, x: nat)
    requires RingOk(ring, at, q) && |q| < NUM
    ensures |ring| == NUM && RingOk(ring[(at + |q|) % 8 := x], at, q + [x])
  {
    forall j | 0 <= j < |q| ensures ring[(at + |q|) % 8 := x][(at + j) % 8] == q[j] { }
  }

  lemma {:induction false} RingTake(ring: seq<nat>, at: nat, q: seq<nat>)
    requires RingOk(ring, at, q) && q != []
    ensures |ring| == NUM && ring[at % 8] == q[0] && RingOk(ring, at + 1, q[1..])
  {
    assert ring[(at + 0) % 8] == q[0];
    forall j | 0 <= j < |q| - 1 ensures ring[(at + 1 + j) % 8] == q[1..][j] {
      assert ring[(at + (j + 1)) % 8] == q[j + 1];
    }
  }

  lemma {:induction false} QueueFits(ring: seq<nat>, at: nat, q: seq<nat>)
    requires RingOk(ring, at, q)
    ensures |q| <= NUM
  {
  }

  /** The 16-bit counters tell whether the queue is empty, and index the ring. */
  lemma {:induction false} Counters(at: nat, n: nat)
    requires n <= NUM
    ensures at % IDX == (at + n) % IDX <==> n == 0
    ensures at % IDX % 8 == at % 8
    ensures (at % IDX + 1) % IDX == (at + 1) % IDX
  {
  }

  lemma {:induction false} ListsKeep(q: seq<nat>, stage: map<nat, Stage>, s: Stage, h: nat, t: Stage)
    requires Lists(q, stage, s) && t != s && (h in stage ==> stage[h] != s)
    ensures Lists(q, stage[h := t], s) && Lists(q, stage - {h}, s)
  {
  }

  lemma {:induction false} ListsAdd(q: seq<nat>, stage: map<nat, Stage>, s: Stage, h: nat)
    requires Lists(q, stage, s) && (h in stage ==> stage[h] != s)
    ensures Lists(q + [h], stage[h := s], s) && h !in q
  {
    var q' := q + [h];
    assert q'[|q|] == h;
    forall x | x in stage && stage[x] == s ensures x in q' { assert x in q; }
  }

  lemma {:induction false} ListsTake(q: seq<nat>, stage: map<nat, Stage>, s: Stage, t: Stage)
    requires Lists(q, stage, s) && q != [] && t != s
    ensures Lists(q[1..], stage[q[0] := t], s) && q[0] in stage && stage[q[0]] == s
  {
    var q' := q[1..];
    forall x | x in stage && stage[x] == s && x != q[0] ensures x in q' {
      var j :| 0 <= j < |q| && q[j] == x;
      assert q'[j - 1] == x;
    }
  }

  lemma {:induction false} ListsAll(q: seq<nat>, stage: map<nat, Stage>, s: Stage)
    requires Lists(q, stage, s)
    ensures forall h :: h in stage && stage[h] == s ==> h in q
    ensures Distinct(q) && forall h :: h in q ==> h in stage && stage[h] == s
  {
  }

  /** A request that is not in a queue finds room in its ring. */
  lemma {:induction false} HasRoom(desc: seq<Desc>, free: seq<bool>, own: map<nat, nat>,
                                   req: map<nat, Request>, q: seq<nat>, h: nat)
    requires DescsOk(desc, free, own, req) && Distinct(q) && (forall x :: x in q ==> x in req) && h < NUM && h !in q
    ensures |q| < NUM
  {
    forall j | 0 <= j < |q| ensures q[j] < NUM { assert ChainOk(desc, own, q[j], req[q[j]]); }
    Pigeonhole(q, NUM, h);
  }

  // ---- Stages of a request ----

  /** What is known about a request in flight. */
  ghost predicate ReqOk(h: nat, m: Mem, g: Track)
    requires h in g.req && h in g.stage
  {
    var r := g.req[h];
    && h < |m.info| && h < |m.ops|
    && m.info[h].b == r.buf && m.ops[h] == Op(r.write, Sector(r.blockno))
    && r.buf in m.data
    && (g.stage[h] == Done ==> m.info[h].status == 0)
    && (g.stage[h] == InUsed || g.stage[h] == Done ==>
          m.info[h].status == 0 ==> h in g.got && g.got[h] == m.data[r.buf])
    && (r.buf in m.busy <==> g.stage[h] != Done)
    && r.buf in g.holder && g.holder[r.buf] == h
    && r.id in g.at && g.at[r.id] == h
  }

  /** Every request submitted is in flight or finished, not both. */
  ghost predicate Counted(g: Track) {
    && (forall b :: b in g.holder ==> g.holder[b] in g.req && g.req[g.holder[b]].buf == b)
    && (forall i :: i in g.at ==> i < g.n && i !in g.finished && g.at[i] in g.req && g.req[g.at[i]].id == i)
    && (forall i: nat :: i < g.n ==> i in g.at || i in g.finished)
    && (forall i :: i in g.finished ==> i < g.n)
  }

  ghost predicate Tracked(m: Mem, g: Track) {
    && g.stage.Keys == g.req.Keys && |m.info| == |m.ops| == NUM
    && (forall h :: h in g.req ==> ReqOk(h, m, g))
    && (forall b :: b in m.data ==> |m.data[b]| == BSIZE)
    && Counted(g)
  }

  lemma {:induction false} SameCounted(g: Track, g': Track)
    requires Counted(g) && g'.req == g.req && g'.holder == g.holder && g'.at == g.at
    requires g'.finished == g.finished && g'.n == g.n
    ensures Counted(g')
  {
  }

  lemma {:induction false} Facts(m: Mem, g: Track, h: nat)
    requires Tracked(m, g) && h in g.stage
    ensures g.stage.Keys == g.req.Keys && h in g.req && ReqOk(h, m, g)
    ensures |m.info| == |m.ops| == NUM && |m.data[g.req[h].buf]| == BSIZE
  {
  }

  lemma {:induction false} TrackedKeys(m: Mem, g: Track)
    requires Tracked(m, g)
    ensures g.stage.Keys == g.req.Keys && |m.info| == |m.ops| == NUM
  {
  }

  /** The rings are no part of what is tracked here. */
  lemma {:induction false} SameTrack(m: Mem, g: Track, g': Track)
    requires Tracked(m, g) && g'.req == g.req && g'.stage == g.stage && g'.got == g.got
    requires g'.holder == g.holder && g'.at == g.at && g'.finished == g.finished && g'.n == g.n
    ensures Tracked(m, g')
  {
    hide Counted, Sector;
    SameCounted(g, g');
    forall x | x in g.req ensures ReqOk(x, m, g') { assert ReqOk(x, m, g); }
  }

  function Fetched(g: Track, h: nat): Track {
    g.(stage := g.stage[h := InDevice])
  }

  lemma {:induction false} FetchTracked(m: Mem, g: Track, h: nat)
    requires Tracked(m, g) && h in g.stage && g.stage[h] == InAvail
    ensures Tracked(m, Fetched(g, h))
  {
    hide Counted, Sector;
    var g' := Fetched(g, h);
    SameCounted(g, g');
    assert ReqOk(h, m, g);
    forall x | x in g.req ensures ReqOk(x, m, g') { assert ReqOk(x, m, g); }
  }

  /** The device has written status `s` and, on success, the bytes of the buffer are `bytes`. */
  function Completed(g: Track, h: nat, s: nat, bytes: seq<Byte>): Track {
    g.(stage := g.stage[h := InUsed], got := if s == 0 then g.got[h := bytes] else g.got)
  }

  function Answered(m: Mem, h: nat, s: nat, b: nat, bytes: seq<Byte>): Mem
    requires h < |m.info|
  {
    m.(info := m.info[h := m.info[h].(status := s)], data := m.data[b := bytes])
  }

  lemma {:induction false} CompleteTracked(m: Mem, g: Track, h: nat, s: nat, bytes: seq<Byte>)
    requires Tracked(m, g) && h in g.stage && g.stage[h] == InDevice && |bytes| == BSIZE
    ensures h in g.req && h < |m.info|
    ensures Tracked(Answered(m, h, s, g.req[h].buf, bytes), Completed(g, h, s, bytes))
  {
    hide Counted, Sector;
    assert ReqOk(h, m, g);
    var m', g' := Answered(m, h, s, g.req[h].buf, bytes), Completed(g, h, s, bytes);
    SameCounted(g, g');
    forall x | x in g.req ensures ReqOk(x, m', g') { CompleteOne(m, g, h, s, bytes, x); }
  }

  lemma {:induction false} CompleteOne(m: Mem, g: Track, h: nat, s: nat, bytes: seq<Byte>, x: nat)
    requires h in g.req && h in g.stage && ReqOk(h, m, g) && g.stage[h] == InDevice
    requires x in g.req && x in g.stage && ReqOk(x, m, g)
    ensures ReqOk(x, Answered(m, h, s, g.req[h].buf, bytes), Completed(g, h, s, bytes))
  {
    hide Sector;
  }

  function Consumed(g: Track, h: nat): Track {
    g.(stage := g.stage[h := Done])
  }

  lemma {:induction false} DoneTracked(m: Mem, g: Track, h: nat)
    requires Tracked(m, g) && h in g.stage && g.stage[h] == InUsed && h < |m.info| && m.info[h].status == 0
    ensures h in g.req && m.info[h].b == g.req[h].buf
    ensures Tracked(m.(busy := m.busy - {g.req[h].buf}), Consumed(g, h))
  {
    hide Counted, Sector;
    assert ReqOk(h, m, g);
    var m', g' := m.(busy := m.busy - {g.req[h].buf}), Consumed(g, h);
    SameCounted(g, g');
    forall x | x in g.req ensures ReqOk(x, m', g') { assert ReqOk(x, m, g); }
  }

  function Submitted(g: Track, h: nat, r: Request): Track {
    g.(own := Owned(g.own, h, r), req := g.req[h := r], stage := g.stage[h := InAvail],
       holder := g.holder[r.buf := h], at := g.at[g.n := h], n := g.n + 1)
  }

  /** A new request for buffer `b` and block `blockno`, last in the available ring. */
  ghost predicate Requested(g: Track, h: nat, b: nat, blockno: nat, write: bool, g': Track) {
    && h !in g.req && h in g'.req
    && g'.req[h] == Request(g.n, g'.req[h].mid, g'.req[h].last, b, blockno, write)
    && g' == Submitted(g, h, g'.req[h]).(qa := g.qa + [h])
  }

  function Asked(m: Mem, h: nat, r: Request): Mem
    requires h < |m.info| && h < |m.ops|
  {
    m.(info := m.info[h := Info(r.buf, 0xff)], ops := m.ops[h := Op(r.write, Sector(r.blockno))],
       busy := m.busy + {r.buf})
  }

  lemma {:induction false} SubmitTracked(m: Mem, g: Track, h: nat, r: Request)
    requires Tracked(m, g) && h !in g.req && h < NUM && r.buf !in g.holder && r.id == g.n && r.buf in m.data
    ensures |m.info| == |m.ops| == NUM && Tracked(Asked(m, h, r), Submitted(g, h, r))
  {
    hide Owned, Sector, Counted;
    var m', g' := Asked(m, h, r), Submitted(g, h, r);
    SubmitCounted(g, h, r);
    forall x | x in g'.req ensures ReqOk(x, m', g') {
      if x != h { SubmitOther(m, g, h, r, x); }
    }
  }

  lemma {:induction false} SubmitOther(m: Mem, g: Track, h: nat, r: Request, x: nat)
    requires x in g.req && x in g.stage && ReqOk(x, m, g) && x != h && h < |m.info| && h < |m.ops|
    requires r.buf !in g.holder && g.n !in g.at
    ensures ReqOk(x, Asked(m, h, r), Submitted(g, h, r))
  {
    hide Owned, Sector;
  }

  lemma {:induction false} SubmitCounted(g: Track, h: nat, r: Request)
    requires Counted(g) && h !in g.req && r.buf !in g.holder && r.id == g.n
    ensures Counted(Submitted(g, h, r)) && g.n !in g.at
  {
    hide Owned;
  }

  function Finished(g: Track, h: nat): Track
    requires h in g.req
  {
    var r := g.req[h];
    g.(own := g.own - {h, r.mid, r.last}, req := g.req - {h}, stage := g.stage - {h},
       holder := g.holder - {r.buf}, at := g.at - {r.id}, finished := g.finished + {r.id})
  }

  function Dropped(m: Mem, h: nat): Mem
    requires h < |m.info|
  {
    m.(info := m.info[h := m.info[h].(b := -1)])
  }

  lemma {:induction false} FinishTracked(m: Mem, g: Track, h: nat)
    requires Tracked(m, g) && h in g.req && g.req[h].buf !in m.busy
    ensures h in g.stage && g.stage[h] == Done && h < |m.info| && g.req[h].id !in g.finished
    ensures h in g.got && g.req[h].buf in m.data && m.data[g.req[h].buf] == g.got[h]
    ensures Tracked(Dropped(m, h), Finished(g, h))
  {
    hide Sector, Counted;
    assert ReqOk(h, m, g);
    FinishCounted(g, h);
    var m', g' := Dropped(m, h), Finished(g, h);
    forall x | x in g'.req ensures ReqOk(x, m', g') { FinishOther(m, g, h, x); }
  }

  lemma {:induction false} FinishOther(m: Mem, g: Track, h: nat, x: nat)
    requires x in g.req && x in g.stage && ReqOk(x, m, g)
    requires h in g.req && h in g.stage && ReqOk(h, m, g) && x != h
    ensures ReqOk(x, Dropped(m, h), Finished(g, h))
  {
    hide Sector;
  }

  lemma {:induction false} FinishCounted(g: Track, h: nat)
    requires Counted(g) && h in g.req && g.req[h].id in g.at && g.at[g.req[h].id] == h
    requires g.req[h].buf in g.holder && g.holder[g.req[h].buf] == h
    ensures Counted(Finished(g, h)) && g.req[h].id !in g.finished
  {
  }

  /** The device has answered the request with status 0. */
  ghost predicate Succeeded(m: Mem, h: nat) {
    h < |m.info| && m.info[h].status == 0
  }

  ghost predicate EndOf(q: seq<nat>, all: seq<nat>) {
    |q| <= |all| && q == all[|all| - |q|..]
  }

  /** A buffer that is in no request may be changed by whoever has locked it. */
  lemma {:induction false} FillTracked(m: Mem, g: Track, b: nat, bytes: seq<Byte>)
    requires Tracked(m, g) && b !in g.holder && |bytes| == BSIZE
    ensures Tracked(m.(data := m.data[b := bytes]), g)
  {
    hide Counted, Sector;
    forall x | x in g.req ensures ReqOk(x, m.(data := m.data[b := bytes]), g) { assert ReqOk(x, m, g); }
  }

  /** The request is carried out: the block on the disk and the buffer have the same bytes
      afterwards, those of the source of the transfer; or there was an error and nothing moved. */
  ghost predicate Carried(m: Mem, disk: seq<Byte>, h: nat, r: Request, fault: bool, m': Mem, disk': seq<Byte>) {
    && r.buf in m.data && h < |m.info| && r.buf in m'.data
    && var a, status := Place(r.blockno), if fault || Place(r.blockno) + BSIZE > |disk| then 1 else 0;
    && m' == Answered(m, h, status, r.buf, m'.data[r.buf])
    && (status == 1 || r.write ==> m'.data == m.data)
    && (status == 1 || !r.write ==> disk' == disk)
    && (status == 0 ==> |m'.data[r.buf]| == BSIZE && disk' == Stored(disk, a, m'.data[r.buf]))
  }

  class Disk {
    var desc: seq<Desc>
    var free: seq<bool>
    var availRing: seq<nat>
    var availIdx: nat
    var usedRing: seq<nat>
    var usedIdx: nat
    var seen: nat             // used_idx
    var m: Mem                // m.busy has the buffers with b->disk == 1
    var devLast: nat          // how far the device has read the available ring
    var disk: seq<Byte>
    ghost var g: Track

    ghost predicate RingsOk()
      reads this
    {
      && RingOk(availRing, g.nf, g.qa) && Lists(g.qa, g.stage, InAvail)
      && RingOk(usedRing, g.nc, g.qu) && Lists(g.qu, g.stage, InUsed)
      && availIdx == (g.nf + |g.qa|) % IDX && devLast == g.nf % IDX
      && usedIdx == (g.nc + |g.qu|) % IDX && seen == g.nc % IDX
    }

    ghost predicate Valid()
      reads this
    {
      DescsOk(desc, free, g.own, g.req) && Tracked(m, g) && RingsOk()
    }

    /** virtio_disk_init, with the buffers `data` and a disk that holds `disk`. */
    constructor (data: map<nat, seq<Byte>>, disk: seq<Byte>)
      requires forall b :: b in data ==> |data[b]| == BSIZE
      ensures Valid() && g.req == map[] && g.n == 0 && m.data == data && this.disk == disk
    {
      desc := seq(NUM, _ => Desc(Null, 0, false, false, 0));
      free := seq(NUM, _ => true);
      availRing, availIdx := seq(NUM, _ => 0), 0;
      usedRing, usedIdx, seen := seq(NUM, _ => 0), 0, 0;
      m := Mem(seq(NUM, _ => Info(-1, 0)), seq(NUM, _ => Op(false, 0)), {}, data);
      devLast := 0;
      this.disk := disk;
      g := Track(map[], map[], map[], map[], map[], map[], {}, 0, 0, 0, [], []);
    }

    /** The kernel changes the data of a buffer that is in no request. */
    method Fill(b: nat, bytes: seq<Byte>)
      requires Valid() && b in m.data && b !in g.holder && |bytes| == BSIZE
      modifies this`m
      ensures Valid() && m == old(m).(data := old(m.data)[b := bytes])
    {
      FillTracked(m, g, b, bytes);
      hide DescsOk, Tracked, RingOk, Lists;
      m := m.(data := m.data[b := bytes]);
    }

    // ---- Steps of the device ----

    /** The device reads the next entry of the available ring. */
    method DeviceFetch() returns (h: nat)
      requires Valid() && devLast != availIdx
      modifies this`devLast, this`g
      ensures Valid() && h in old(g.stage) && old(g.stage)[h] == InAvail
      ensures g == Fetched(old(g), h).(nf := old(g.nf) + 1, qa := old(g.qa)[1..])
    {
      hide DescsOk, Tracked, RingOk, Lists;
      QueueFits(availRing, g.nf, g.qa);
      Counters(g.nf, |g.qa|);
      RingTake(availRing, g.nf, g.qa);
      ListsTake(g.qa, g.stage, InAvail, InDevice);
      ListsKeep(g.qu, g.stage, InUsed, g.qa[0], InDevice);
      FetchTracked(m, g, g.qa[0]);
      h := availRing[devLast % NUM];
      devLast := (devLast + 1) % IDX;
      SameTrack(m, Fetched(g, h), Fetched(g, h).(nf := g.nf + 1, qa := g.qa[1..]));
      g := Fetched(g, h).(nf := g.nf + 1, qa := g.qa[1..]);
    }

    /** The device carries out a request it has fetched.  It reads the request through the
        descriptors, fails when they are not as they should be, when the disk is too small or
        when `fault` says so, and otherwise moves the
        bytes between the disk and the buffer; then it writes the status and an entry of the
        used ring. */
    method DeviceComplete(h: nat, fault: bool)
      requires Valid() && h in g.stage && g.stage[h] == InDevice
      modifies this`m, this`disk, this`usedRing, this`usedIdx, this`g
      ensures Valid() && h in old(g.req) && Carried(old(m), old(disk), h, old(g.req)[h], fault, m, disk)
      ensures g == Completed(old(g), h, m.info[h].status, m.data[old(g.req)[h].buf]).(qu := old(g.qu) + [h])
    {
      hide DescsOk, Tracked, RingOk, Lists, Sector;
      Facts(m, g, h);
      DescsChain(desc, free, g.own, g.req, h);
      ListsAll(g.qu, g.stage, InUsed);
      HasRoom(desc, free, g.own, g.req, g.qu, h);
      ghost var r := g.req[h];
      var head := desc[h];
      var op, part := m.ops[head.addr.i], desc[head.next];
      var last := desc[part.next];
      var b, a := part.addr.b, 512 * op.sector;
      var formed := head.chained && part.chained && !last.chained && head.len == 16 && !head.devWrites
                    && last.len == 1 && last.devWrites && part.devWrites != op.out;
      var status := if fault || !formed || a + part.len > |disk| then 1 else 0;
      var bytes := Moved(b, a, part.len, op.out, status);
      CompleteTracked(m, g, h, status, bytes);
      m := Answered(m, last.addr.i, status, b, bytes);
      Push(h, status, bytes);
    }

    /** The transfer of one block; the result is what the buffer holds afterwards. */
    method Moved(b: nat, a: nat, len: nat, out: bool, status: nat) returns (bytes: seq<Byte>)
      requires b in m.data && |m.data[b]| == len && (status == 0 ==> a + len <= |disk|)
      modifies this`disk
      ensures |bytes| == len && (status != 0 || out ==> bytes == m.data[b])
      ensures disk == if status == 0 then Stored(old(disk), a, bytes) else old(disk)
      ensures !out ==> disk == old(disk)
    {
      bytes := m.data[b];
      if status == 0 {
        if out {
          disk := Stored(disk, a, bytes);
        } else {
          bytes := disk[a..a + len];
          assert Stored(disk, a, bytes) == disk;
        }
      }
    }

    /** The entry of the used ring. */
    method Push(h: nat, ghost status: nat, ghost bytes: seq<Byte>)
      requires DescsOk(desc, free, g.own, g.req) && Tracked(m, Completed(g, h, status, bytes)) && RingsOk()
      requires |g.qu| < NUM && h in g.stage && g.stage[h] == InDevice
      modifies this`usedRing, this`usedIdx, this`g
      ensures Valid() && g == Completed(old(g), h, status, bytes).(qu := old(g.qu) + [h])
    {
      hide DescsOk, Tracked, RingOk, Lists;
      ListsAdd(g.qu, g.stage, InUsed, h);
      ListsKeep(g.qa, g.stage, InAvail, h, InUsed);
      RingAdd(usedRing, g.nc, g.qu, h);
      Counters(g.nc + |g.qu|, 0);
      usedRing := usedRing[usedIdx % NUM := h];
      usedIdx := (usedIdx + 1) % IDX;
      ghost var g' := Completed(g, h, status, bytes);
      SameTrack(m, g', g'.(qu := g.qu + [h]));
      g := g'.(qu := g.qu + [h]);
    }

    // ---- Steps of the driver ----

    /** One round of virtio_disk_intr: the request completed first is done; the driver panics
        exactly when its status is not 0. */
    method IntrOne() returns (h: nat, panic: bool)
      requires Valid() && seen != usedIdx
      modifies this`seen, this`m, this`g
      ensures Valid() && old(g.qu) != [] && h == old(g.qu)[0]
      ensures h in old(g.stage) && old(g.stage)[h] == InUsed && h in g.req && h < |old(m.info)|
      ensures panic <==> old(m.info)[h].status != 0
      ensures panic ==> m == old(m) && g == old(g) && seen == old(seen)
      ensures !panic ==> m == old(m).(busy := old(m.busy) - {g.req[h].buf})
      ensures !panic ==> g == Consumed(old(g), h).(nc := old(g.nc) + 1, qu := old(g.qu)[1..])
    {
      hide DescsOk, Tracked, RingOk, Lists;
      QueueFits(usedRing, g.nc, g.qu);
      Counters(g.nc, |g.qu|);
      RingTake(usedRing, g.nc, g.qu);
      ListsTake(g.qu, g.stage, InUsed, Done);
      ListsKeep(g.qa, g.stage, InAvail, g.qu[0], Done);
      h := usedRing[seen % NUM];
      Facts(m, g, h);
      if m.info[h].status != 0 {
        return h, true;
      }
      panic := false;
      DoneTracked(m, g, h);
      m := m.(busy := m.busy - {m.info[h].b});
      seen := (seen + 1) % IDX;
      SameTrack(m, Consumed(g, h), Consumed(g, h).(nc := g.nc + 1, qu := g.qu[1..]));
      g := Consumed(g, h).(nc := g.nc + 1, qu := g.qu[1..]);
    }

    /** virtio_disk_intr: every completion in the used ring is consumed, up to the first one
        with a status that is not 0. */
    method Intr() returns (panic: bool)
      requires Valid()
      modifies this`seen, this`m, this`g
      ensures Valid() && g.req == old(g.req) && g.stage.Keys == old(g.stage).Keys
      ensures m == old(m).(busy := m.busy) && EndOf(g.qu, old(g.qu))
      ensures forall j :: 0 <= j < |old(g.qu)| - |g.qu| ==> Succeeded(old(m), old(g.qu)[j])
      ensures if panic then g.qu != [] && !Succeeded(old(m), g.qu[0]) else g.qu == []
      ensures forall h :: h in old(g.stage) ==>
        g.stage[h] == if old(g.stage)[h] == InUsed && h !in g.qu then Done else old(g.stage)[h]
    {
      hide DescsOk, Tracked, RingOk, Lists;
      ListsAll(g.qu, g.stage, InUsed);
      ghost var before, was := g, m;
      panic := false;
      while seen != usedIdx
        invariant Valid() && g.req == before.req && g.stage.Keys == before.stage.Keys
        invariant m == was.(busy := m.busy) && EndOf(g.qu, before.qu)
        invariant forall j :: 0 <= j < |before.qu| - |g.qu| ==> Succeeded(was, before.qu[j])
        invariant forall h :: h in before.stage ==>
          g.stage[h] == if before.stage[h] == InUsed && h !in g.qu then Done else before.stage[h]
        decreases |g.qu|
      {
        ghost var q := g.qu;
        ListsAll(g.qu, g.stage, InUsed);
        var h;
        h, panic := IntrOne();
        if panic { return; }
        assert q == [h] + g.qu;
      }
      QueueFits(usedRing, g.nc, g.qu);
      Counters(g.nc, |g.qu|);
    }

    /** alloc_desc: the first free descriptor, or -1. */
    method AllocDesc() returns (i: int)
      requires |free| == NUM
      modifies this`free
      ensures i == -1 ==> free == old(free) && forall d :: 0 <= d < NUM ==> !free[d]
      ensures i != -1 ==> 0 <= i < NUM && old(free)[i] && free == old(free)[i := false]
      ensures i != -1 ==> forall d :: 0 <= d < i ==> !old(free)[d]
    {
      i := 0;
      while i < NUM
        invariant 0 <= i <= NUM && free == old(free) && forall d :: 0 <= d < i ==> !free[d]
      {
        if free[i] {
          free := free[i := false];
          return;
        }
        i := i + 1;
      }
      return -1;
    }

    /** free_desc; it panics on a free descriptor. */
    method FreeDesc(i: nat)
      requires |free| == |desc| == NUM && i < NUM && !free[i]
      modifies this`free, this`desc
      ensures free == old(free)[i := true] && desc == old(desc)[i := Desc(Null, 0, false, false, 0)]
    {
      desc := desc[i := Desc(Null, 0, false, false, 0)];
      free := free[i := true];
    }

    /** alloc3_desc: three free descriptors, or none when there are fewer. */
    method Alloc3Desc() returns (idx: seq<nat>, ok: bool)
      requires |free| == |desc| == NUM
      modifies this`free, this`desc
      ensures |desc| == NUM
      ensures ok ==> |idx| == 3 && Taken(old(free), free, idx) && desc == old(desc)
      ensures !ok ==> free == old(free) && (forall d :: 0 <= d < NUM && !free[d] ==> desc[d] == old(desc)[d])
      ensures ok <==> !TwoAtMost(old(free))
    {
      hide Taken;
      idx := [];
      ghost var before := free;
      TakenNone(free);
      while |idx| < 3
        invariant |idx| <= 3 && |free| == NUM && Taken(before, free, idx) && desc == old(desc)
      {
        ghost var left := free;
        var i := AllocDesc();
        if i < 0 {
          TakenAll(before, free, idx);
          GiveBack(idx, before);
          return idx, false;
        }
        TakenMore(before, left, idx, i);
        idx := idx + [i];
      }
      TakenThree(before, free, idx);
      return idx, true;
    }

    /** The descriptors taken so far go back. */
    method GiveBack(idx: seq<nat>, ghost before: seq<bool>)
      requires |free| == |desc| == |before| == NUM && Taken(before, free, idx)
      modifies this`free, this`desc
      ensures free == before && |desc| == NUM
      ensures forall d :: 0 <= d < NUM && !free[d] ==> desc[d] == old(desc)[d]
    {
      hide Taken;
      ghost var was := desc;
      assert idx[0..] == idx;
      for j := 0 to |idx|
        invariant |free| == |desc| == NUM && Taken(before, free, idx[j..]) && Kept(before, was, desc)
      {
        TakenFirst(before, free, idx[j..]);
        assert idx[j..][1..] == idx[j + 1..];
        FreeDesc(idx[j]);
      }
      assert idx[|idx|..] == [];
      TakenNothing(before, free);
    }

    /** free_chain of a request: its three descriptors. */
    method FreeChain(h: nat, ghost r: Request)
      requires |free| == |desc| == NUM && ChainOk(desc, g.own, h, r) && !free[h] && !free[r.mid] && !free[r.last]
      modifies this`free, this`desc
      ensures |desc| == NUM && free == old(free)[h := true][r.mid := true][r.last := true]
      ensures forall d :: 0 <= d < NUM && !InChain(h, r, d) ==> desc[d] == old(desc)[d]
    {
      var i, more := h, true;
      ghost var k := 0;
      while more
        invariant 0 <= k <= 3 && |free| == |desc| == NUM && (more <==> k < 3)
        invariant more ==> i == if k == 0 then h else if k == 1 then r.mid else r.last
        invariant free == if k == 0 then old(free) else if k == 1 then old(free)[h := true]
                          else if k == 2 then old(free)[h := true][r.mid := true]
                          else old(free)[h := true][r.mid := true][r.last := true]
        invariant forall d :: 0 <= d < NUM && !InChain(h, r, d) ==> desc[d] == old(desc)[d]
        invariant k <= 1 ==> desc[r.mid] == old(desc)[r.mid]
        invariant k <= 2 ==> desc[r.last] == old(desc)[r.last]
        invariant k == 0 ==> desc[h] == old(desc)[h]
        decreases 3 - k
      {
        var flag, nxt := desc[i].chained, desc[i].next;
        FreeDesc(i);
        if flag {
          i := nxt;
        } else {
          more := false;
        }
        k := k + 1;
      }
    }

    /** The first half of virtio_disk_rw: a request for block `blockno` in buffer `b` is made
        available to the device; -1 when there are not three free descriptors and the process
        has to sleep. */
    method Submit(b: nat, blockno: nat, write: bool) returns (h: int)
      requires Valid() && b in m.data && b !in g.holder
      modifies this
      ensures Valid() && disk == old(disk) && m.data == old(m.data)
      ensures h == -1 ==> g == old(g) && m == old(m)
      ensures h == -1 <==> TwoAtMost(old(free))
      ensures h != -1 ==> h >= 0 && Requested(old(g), h, b, blockno, write, g) && m.busy == old(m.busy) + {b}
    {
      hide DescsOk, Tracked, RingOk, Lists;
      DescsSize(desc, free, g.own, g.req);
      var idx, ok := Alloc3Desc();
      if !ok {
        SameDescs(old(desc), free, g.own, g.req, desc);
        return -1;
      }
      h := idx[0];
      ghost var r := Request(g.n, idx[1], idx[2], b, blockno, write);
      TakenChain(old(free), free, idx, h, r);
      SubmitDescs(old(desc), old(free), g.own, g.req, h, r, free);
      TrackedKeys(m, g);
      SubmitTracked(m, g, h, r);
      Format(idx, b, blockno, write, r);
      Enqueue(h, r);
    }

    /** The descriptors, the header and the bookkeeping of a request. */
    method Format(idx: seq<nat>, b: nat, blockno: nat, write: bool, ghost r: Request)
      requires |idx| == 3 && |desc| == |m.info| == |m.ops| == NUM && idx[0] < NUM && idx[1] < NUM && idx[2] < NUM
      requires r == Request(r.id, idx[1], idx[2], b, blockno, write)
      modifies this`desc, this`m
      ensures desc == Formatted(old(desc), idx[0], r) && m == Asked(old(m), idx[0], r)
    {
      var sector := blockno * 2 % UINT;
      var i := idx[0];
      m := m.(ops := m.ops[i := Op(write, sector)]);
      desc := desc[i := Desc(OpAt(i), 16, true, false, idx[1])];
      desc := desc[idx[1] := Desc(DataOf(b), BSIZE, true, !write, idx[2])];
      m := m.(info := m.info[i := m.info[i].(status := 0xff)]);
      desc := desc[idx[2] := Desc(StatusAt(i), 1, false, true, 0)];
      m := m.(busy := m.busy + {b});
      m := m.(info := m.info[i := m.info[i].(b := b)]);
    }

    /** The head of a request put into the available ring. */
    method Enqueue(h: nat, ghost r: Request)
      requires RingsOk() && h < NUM && h !in g.req && h !in g.stage
      requires DescsOk(desc, free, Owned(g.own, h, r), g.req[h := r]) && Tracked(m, Submitted(g, h, r))
      modifies this`availRing, this`availIdx, this`g
      ensures Valid() && g == Submitted(old(g), h, r).(qa := old(g.qa) + [h])
    {
      hide DescsOk, Tracked, RingOk, Lists, Owned;
      TrackedKeys(m, Submitted(g, h, r));
      ListsAll(g.qa, g.stage, InAvail);
      ListsAdd(g.qa, g.stage, InAvail, h);
      ListsKeep(g.qu, g.stage, InUsed, h, InAvail);
      HasRoom(desc, free, Owned(g.own, h, r), g.req[h := r], g.qa, h);
      RingAdd(availRing, g.nf, g.qa, h);
      Counters(g.nf + |g.qa|, 0);
      availRing := availRing[availIdx % NUM := h];
      availIdx := (availIdx + 1) % IDX;
      SameTrack(m, Submitted(g, h, r), Submitted(g, h, r).(qa := g.qa + [h]));
      g := Submitted(g, h, r).(qa := g.qa + [h]);
    }

    /** The second half of virtio_disk_rw, once b->disk is 0: the request gives back its
        descriptors.  The buffer holds the bytes that the device has moved. */
    method Finish(h: nat)
      requires Valid() && h in g.req && g.req[h].buf !in m.busy
      modifies this`m, this`free, this`desc, this`g
      ensures Valid() && h in old(g.stage) && old(g.stage)[h] == Done
      ensures g == Finished(old(g), h) && old(g.req)[h].id !in old(g.finished)
      ensures h < |old(m.info)| && m == Dropped(old(m), h)
      ensures old(g.req)[h].buf in m.data && h in g.got && m.data[old(g.req)[h].buf] == g.got[h]
    {
      hide DescsOk, Tracked, RingOk, Lists;
      ghost var r := g.req[h];
      DescsSize(desc, free, g.own, g.req);
      FinishTracked(m, g, h);
      FinishDescs(desc, free, g.own, g.req, h);
      ListsKeep(g.qa, g.stage, InAvail, h, Done);
      ListsKeep(g.qu, g.stage, InUsed, h, Done);
      m := m.(info := m.info[h := m.info[h].(b := -1)]);
      FreeChain(h, r);
      SameDescs(old(desc), free, g.own - {h, r.mid, r.last}, g.req - {h}, desc);
      g := Finished(g, h);
    }
  }

  // ---- Taking three descriptors ----

  /** `free` is `before` without the descriptors of `idx`, which were free and are distinct. */
  ghost predicate Taken(before: seq<bool>, free: seq<bool>, idx: seq<nat>) {
    && |before| == |free| == NUM && Distinct(idx)
    && (forall k :: 0 <= k < |idx| ==> idx[k] < NUM && before[idx[k]])
    && (forall d :: 0 <= d < NUM ==> free[d] == (before[d] && d !in idx))
  }

  ghost predicate TwoAtMost(free: seq<bool>) {
    forall i, j, k :: 0 <= i < j < k < |free| ==> !(free[i] && free[j] && free[k])
  }

  /** Only descriptors that were free have changed. */
  ghost predicate Kept(before: seq<bool>, desc: seq<Desc>, desc': seq<Desc>) {
    && |before| == |desc| == |desc'| == NUM
    && forall d :: 0 <= d < NUM && !before[d] ==> desc'[d] == desc[d]
  }

  lemma {:induction false} TakenNone(before: seq<bool>)
    requires |before| == NUM
    ensures Taken(before, before, [])
  {
  }

  lemma {:induction false} TakenNothing(before: seq<bool>, free: seq<bool>)
    requires Taken(before, free, [])
    ensures free == before
  {
  }

  lemma {:induction false} TakenMore(before: seq<bool>, free: seq<bool>, idx: seq<nat>, i: nat)
    requires Taken(before, free, idx) && i < NUM && free[i]
    ensures Taken(before, free[i := false], idx + [i])
  {
    forall d | 0 <= d < NUM ensures free[i := false][d] == (before[d] && d !in idx + [i]) {
      assert d in idx + [i] <==> d in idx || d == i;
    }
  }

  lemma {:induction false} TakenFirst(before: seq<bool>, free: seq<bool>, idx: seq<nat>)
    requires Taken(before, free, idx) && idx != []
    ensures idx[0] < NUM && before[idx[0]] && !free[idx[0]] && Taken(before, free[idx[0] := true], idx[1..])
  {
    forall d | 0 <= d < NUM ensures free[idx[0] := true][d] == (before[d] && d !in idx[1..]) {
      assert d in idx <==> d == idx[0] || d in idx[1..];
    }
  }

  lemma {:induction false} TakenThree(before: seq<bool>, free: seq<bool>, idx: seq<nat>)
    requires Taken(before, free, idx) && |idx| == 3
    ensures !TwoAtMost(before)
  {
    var i, j, k := Order(idx[0], idx[1], idx[2]);
    assert i < j < k < |before| && before[i] && before[j] && before[k];
  }

  lemma {:induction false} Order(a: nat, b: nat, c: nat) returns (i: nat, j: nat, k: nat)
    requires a != b && a != c && b != c
    ensures i < j < k && {i, j, k} == {a, b, c}
  {
    if a < b {
      i, j, k := if c < a then c else a, if c < a then a else if c < b then c else b, if c < b then b else c;
    } else {
      i, j, k := if c < b then c else b, if c < b then b else if c < a then c else a, if c < a then a else c;
    }
  }

  /** Nothing is left, so fewer than three were free. */
  lemma {:induction false} TakenAll(before: seq<bool>, free: seq<bool>, idx: seq<nat>)
    requires Taken(before, free, idx) && |idx| < 3 && forall d :: 0 <= d < NUM ==> !free[d]
    ensures TwoAtMost(before)
  {
    forall d | 0 <= d < NUM && before[d] ensures |idx| > 0 && (d == idx[0] || (|idx| == 2 && d == idx[1])) {
      assert d in idx;
    }
  }

  lemma {:induction false} TakenChain(before: seq<bool>, free: seq<bool>, idx: seq<nat>, h: nat, r: Request)
    requires Taken(before, free, idx) && |idx| == 3 && h == idx[0] && r.mid == idx[1] && r.last == idx[2]
    ensures |free| == |before| == NUM && Apart(h, r) && before[h] && before[r.mid] && before[r.last]
    ensures forall d :: 0 <= d < NUM ==> free[d] == (before[d] && !InChain(h, r, d))
  {
    forall d | 0 <= d < NUM ensures d in idx <==> InChain(h, r, d) { }
  }
}
