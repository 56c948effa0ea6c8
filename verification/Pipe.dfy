/** Pipes: a ring of PIPESIZE bytes with 32-bit counters that wrap.  A method is what a
    process does between acquiring the pipe's lock and giving it up, at the end or in sleep. */
module Pipe {
  import opened Types

  const PIPESIZE: nat := 512

  /** How a call leaves the lock: finished, asleep with the rest to do, or -1. */
  datatype Outcome = Finished | Sleeps | Fails

  /** Quotient and remainder are unique. */
  lemma {:induction false} ModIs(x: int, m: int, q: int, r: int)
    requires 0 <= r < m && x == q * m + r
    ensures x % m == r
  {
    var d := x / m - q;
    assert d * m == x / m * m - q * m;
    assert d >= 1 ==> d * m >= m by { if d >= 1 { Times(d - 1, m); } }
    assert d <= -1 ==> d * m <= -m by { if d <= -1 { Times(-d - 1, m); } }
  }

  lemma {:induction false} Times(a: int, m: int)
    requires a >= 0 && m >= 0
    ensures a * m >= 0 && (a + 1) * m >= m && (-a - 1) * m <= -m
  {
  }

  /** Indexing a ring of `size` places by a wrapped counter is indexing it by the true count
      exactly when the size divides 2^32. */
  lemma {:induction false} WrapIff(size: nat)
    requires 0 < size
    ensures (forall k: nat :: (k % UINT) % size == k % size) <==> UINT % size == 0
  {
    if UINT % size == 0 {
      forall k: nat ensures (k % UINT) % size == k % size { WrapKeeps(k, size, UINT / size); }
    } else {
      var k := UINT;
      assert (k % UINT) % size != k % size;
    }
  }

  lemma {:induction false} WrapKeeps(k: nat, size: nat, m: nat)
    requires 0 < size && UINT == m * size
    ensures (k % UINT) % size == k % size
  {
    var q, r := k / UINT, k % UINT;
    var a, b := r / size, r % size;
    assert q * UINT == q * m * size;
    assert k == (q * m + a) * size + b;
    ModIs(k, size, q * m + a, b);
  }

  lemma {:induction false} Wraps(n: nat, d: nat)
    ensures (n % UINT + d) % UINT == (n + d) % UINT
  {
    var x := n % UINT + d;
    assert n + d == (n / UINT + x / UINT) * UINT + x % UINT;
    ModIs(n + d, UINT, n / UINT + x / UINT, x % UINT);
  }

  /** A step of a wrapped counter is a step of the count. */
  lemma {:induction false} Counts(n: nat)
    ensures (n % UINT + 1) % UINT == (n + 1) % UINT && (n % UINT) % PIPESIZE == n % PIPESIZE
  {
    WrapKeeps(n, PIPESIZE, 0x80_0000);
    Wraps(n, 1);
  }

  lemma {:induction false} Apart(a: nat, b: nat, m: nat)
    requires a < b < a + m
    ensures a % m != b % m
  {
    var d := b / m - a / m;
    assert d * m == b / m * m - a / m * m;
    if d >= 1 { Times(d - 1, m); } else { Times(-d, m); }
  }

  /** The place of byte `k` holds it, for every byte put in and not yet taken. */
  ghost predicate Queued(data: seq<Byte>, put: seq<Byte>, taken: nat)
    requires |data| == PIPESIZE
  {
    forall k: nat :: taken <= k < |put| ==> data[k % PIPESIZE] == put[k]
  }

  /** `put` holds all bytes ever written, of which `taken` have been read; the ring holds the
      difference. */
  ghost predicate RingOk(data: seq<Byte>, nread: nat, nwrite: nat, put: seq<Byte>, taken: nat) {
    && |data| == PIPESIZE && taken <= |put| <= taken + PIPESIZE
    && nread == taken % UINT && nwrite == |put| % UINT
    && Queued(data, put, taken)
  }

  lemma {:induction false} PutQueued(data: seq<Byte>, put: seq<Byte>, taken: nat, ch: Byte)
    requires |data| == PIPESIZE && taken <= |put| < taken + PIPESIZE && Queued(data, put, taken)
    ensures Queued(data[|put| % PIPESIZE := ch], put + [ch], taken)
  {
    forall k: nat | taken <= k < |put| + 1
      ensures data[|put| % PIPESIZE := ch][k % PIPESIZE] == (put + [ch])[k]
    {
      if k < |put| { Apart(k, |put|, PIPESIZE); }
    }
  }

  lemma {:induction false} PutOk(data: seq<Byte>, nread: nat, nwrite: nat, put: seq<Byte>, taken: nat, ch: Byte)
    requires RingOk(data, nread, nwrite, put, taken) && |put| < taken + PIPESIZE
    ensures RingOk(data[nwrite % PIPESIZE := ch], nread, (nwrite + 1) % UINT, put + [ch], taken)
  {
    hide Queued;
    Counts(|put|);
    PutQueued(data, put, taken, ch);
  }

  lemma {:induction false} TakeOk(data: seq<Byte>, nread: nat, nwrite: nat, put: seq<Byte>, taken: nat)
    requires RingOk(data, nread, nwrite, put, taken) && taken < |put|
    ensures data[nread % PIPESIZE] == put[taken]
    ensures RingOk(data, (nread + 1) % UINT, nwrite, put, taken + 1)
  {
    Counts(taken);
    assert data[taken % PIPESIZE] == put[taken];
  }

  /** The counters tell an empty and a full ring, across any number of wraps. */
  lemma {:induction false} EmptyAndFull(data: seq<Byte>, nread: nat, nwrite: nat, put: seq<Byte>, taken: nat)
    requires RingOk(data, nread, nwrite, put, taken)
    ensures nread == nwrite <==> taken == |put|
    ensures nwrite == (nread + PIPESIZE) % UINT <==> |put| == taken + PIPESIZE
  {
    hide Queued;
    if taken < |put| { Apart(taken, |put|, UINT); }
    Wraps(taken, PIPESIZE);
    if |put| < taken + PIPESIZE { Apart(|put|, taken + PIPESIZE, UINT); }
  }

  class Ring {
    var data: seq<Byte>
    var nread: nat
    var nwrite: nat
    var readopen: bool
    var writeopen: bool
    ghost var put: seq<Byte>
    ghost var taken: nat

    ghost predicate Valid()
      reads this
    {
      RingOk(data, nread, nwrite, put, taken)
    }

    /** pipealloc. */
    constructor ()
      ensures Valid() && put == [] && taken == 0 && readopen && writeopen
    {
      data := seq(PIPESIZE, _ => 0);
      nread, nwrite, readopen, writeopen := 0, 0, true, true;
      put, taken := [], 0;
    }

    /** pipeclose; true when the pipe is freed. */
    method Close(writable: bool) returns (freed: bool)
      requires Valid()
      modifies this`readopen, this`writeopen
      ensures Valid() && writeopen == (old(writeopen) && !writable) && readopen == (old(readopen) && writable)
      ensures freed <==> !readopen && !writeopen
    {
      if writable {
        writeopen := false;
      } else {
        readopen := false;
      }
      freed := !readopen && !writeopen;
    }

    /** pipewrite from byte `i` of `src` on, until it is done or has to sleep; copyin fails from
        byte `fault` on.  It puts in as many bytes as the source, the ring and the fault allow,
        and sleeps exactly if it is the ring that stops it. */
    method Write(src: seq<Byte>, i: nat, killed: bool, fault: nat) returns (j: nat, o: Outcome)
      requires Valid() && i <= |src|
      modifies this`data, this`nwrite, this`put
      ensures Valid() && i <= j <= |src| && put == old(put) + src[i..j]
      ensures o == Fails <==> i < |src| && (!readopen || killed)
      ensures var room := taken + PIPESIZE - |old(put)|;
              && j - i == (if o == Fails then 0 else Min(|src| - i, Min(room, Past(fault, i))))
              && (o == Sleeps <==> o != Fails && room < |src| - i && room <= Past(fault, i))
    {
      hide Queued;
      j := i;
      while j < |src|
        invariant i <= j <= |src| && Valid() && put == old(put) + src[i..j]
        invariant j - i <= Past(fault, i)
        invariant j > i ==> readopen && !killed
      {
        if !readopen || killed { return j, Fails; }
        EmptyAndFull(data, nread, nwrite, put, taken);
        if nwrite == (nread + PIPESIZE) % UINT { return j, Sleeps; }
        if j >= fault { break; }
        PutOk(data, nread, nwrite, put, taken, src[j]);
        data := data[nwrite % PIPESIZE := src[j]];
        nwrite := (nwrite + 1) % UINT;
        put := put + [src[j]];
        j := j + 1;
        assert src[i..j] == src[i..j - 1] + [src[j - 1]];
      }
      return j, Finished;
    }

    /** piperead of up to `n` bytes; copyout fails at byte `fault`.  The oldest bytes are
        delivered, as many as were asked for, are there and can be stored; one byte more is
        taken out and lost exactly if the fault comes first. */
    method Read(n: nat, killed: bool, fault: nat) returns (dst: seq<Byte>, o: Outcome)
      requires Valid()
      modifies this`nread, this`taken
      ensures Valid()
      ensures var avail := |put| - old(taken);
              && o == (if avail > 0 || !writeopen then Finished else if killed then Fails else Sleeps)
              && |dst| == Min(n, Min(fault, avail)) && dst == put[old(taken)..old(taken) + |dst|]
              && taken == old(taken) + |dst| + if Loses(n, fault, avail) then 1 else 0
    {
      hide Queued;
      EmptyAndFull(data, nread, nwrite, put, taken);
      dst := [];
      if nread == nwrite && writeopen {
        return [], if killed then Fails else Sleeps;
      }
      while |dst| < n
        invariant Valid() && |dst| <= n && |dst| <= fault
        invariant taken == old(taken) + |dst| && dst == put[old(taken)..taken]
      {
        EmptyAndFull(data, nread, nwrite, put, taken);
        if nread == nwrite { break; }
        TakeOk(data, nread, nwrite, put, taken);
        var ch := data[nread % PIPESIZE];
        nread := (nread + 1) % UINT;
        taken := taken + 1;
        if |dst| == fault { break; }
        dst := dst + [ch];
      }
      return dst, Finished;
    }
  }

  function Min(a: int, b: int): int {
    if a < b then a else b
  }

  /** How many bytes from `i` on copyin can fetch. */
  function Past(fault: nat, i: nat): nat {
    if fault <= i then 0 else fault - i
  }

  /** A read of `n` bytes, with `avail` in the ring, meets the byte it cannot store. */
  predicate Loses(n: nat, fault: nat, avail: nat) {
    fault < n && fault < avail
  }

  /** A byte that is put in and never delivered: the reader's page is missing. */
  method LostByte() returns (p: Ring, dst: seq<Byte>, o: Outcome)
    ensures o == Finished && dst == [] && p.put == [7] && p.taken == 1
  {
    p := new Ring();
    var j, w := p.Write([7], 0, false, 1);
    dst, o := p.Read(1, false, 0);
  }
}
