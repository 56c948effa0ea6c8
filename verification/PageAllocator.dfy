/** The page allocator: a free list linked through the free pages themselves, and the
    reference counts.  Pages are numbered from the first page after the kernel; -1 is the
    null pointer. */
module PageAllocator {

  /** `list` is the chain of pages that starts at `head`. */
  ghost predicate Chain(next: seq<int>, head: int, list: seq<nat>) {
    && (forall i, j :: 0 <= i < j < |list| ==> list[i] != list[j])
    && (forall i :: 0 <= i < |list| ==> list[i] < |next|)
    && head == (if list == [] then -1 else list[0])
    && (forall i, j :: 0 <= i && j == i + 1 < |list| ==> next[list[i]] == list[j])
    && (list != [] ==> next[list[|list| - 1]] == -1)
  }

  /** A freed page points at the old head and becomes the head. */
  lemma {:induction false} PushChain(next: seq<int>, head: int, list: seq<nat>, p: nat)
    requires Chain(next, head, list) && p < |next| && p !in list
    ensures Chain(next[p := head], p, [p] + list)
  {
    var next', list' := next[p := head], [p] + list;
    assert forall i :: 1 <= i < |list'| ==> list'[i] == list[i - 1];
    forall i, j | 0 <= i && j == i + 1 < |list'| ensures next'[list'[i]] == list'[j] {
      if i > 0 { assert next[list[i - 1]] == list[j - 1]; }
    }
  }

  /** The page that the head points at becomes the head. */
  lemma {:induction false} PopChain(next: seq<int>, head: int, list: seq<nat>)
    requires Chain(next, head, list) && list != []
    ensures Chain(next, next[list[0]], list[1..])
  {
    var list' := list[1..];
    assert forall i :: 0 <= i < |list'| ==> list'[i] == list[i + 1];
    if |list| > 1 { assert next[list[0]] == list[1]; }
    forall i, j | 0 <= i && j == i + 1 < |list'| ensures next[list'[i]] == list'[j] {
      assert next[list[i + 1]] == list[j + 1];
    }
  }

  lemma {:induction false} NoChain(next: seq<int>)
    ensures Chain(next, -1, [])
  {
  }

  class Kmem {
    var next: seq<int>     // the first word of each page, a pointer while the page is free
    var freelist: int
    var ref: seq<nat>      // num_ref_to_page
    ghost var free: seq<nat>

    /** The free list holds pages with count 0, each once. */
    ghost predicate Valid()
      reads this
    {
      && |next| == |ref|
      && Chain(next, freelist, free)
      && forall i :: 0 <= i < |free| ==> ref[free[i]] == 0
    }

    /** kinit: freerange over `n` pages. */
    constructor (n: nat)
      ensures Valid() && |ref| == n
      ensures forall p :: 0 <= p < n ==> ref[p] == 0
      ensures |free| == n && forall i :: 0 <= i < n ==> free[i] == n - 1 - i
    {
      next := seq(n, _ => 0);
      ref := seq(n, _ => 0);
      freelist := -1;
      free := [];
      new;
      hide Chain;
      NoChain(next);
      ghost var zero := ref;
      for p := 0 to n
        invariant Valid() && ref == zero
        invariant |free| == p && forall i :: 0 <= i < p ==> free[i] == p - 1 - i
      {
        ref := ref[p := 1];
        Kfree(p);
        assert ref == zero;
      }
    }

    /** kalloc; -1 for null.  It fails exactly when the list is empty. */
    method Kalloc() returns (r: int)
      requires Valid()
      modifies this`freelist, this`ref, this`free
      ensures Valid()
      ensures r == if old(free) == [] then -1 else old(free)[0]
      ensures r == -1 ==> ref == old(ref) && free == old(free)
      ensures r != -1 ==> 0 <= r < |ref| && old(ref)[r] == 0 && ref == old(ref)[r := 1] && free == old(free)[1..]
    {
      r := freelist;
      if r != -1 {
        if ref[r] != 0 {
          return -1;
        }
        PopChain(next, freelist, free);
        ref := ref[r := 1];
        freelist := next[r];
        free := free[1..];
      }
    }

    /** kfree of a page with a positive count; kfree panics on count 0. */
    method Kfree(p: nat)
      requires Valid() && p < |ref| && ref[p] > 0
      modifies this
      ensures Valid()
      ensures ref == old(ref)[p := old(ref)[p] - 1]
      ensures free == if old(ref)[p] == 1 then [p] + old(free) else old(free)
    {
      ref := ref[p := ref[p] - 1];
      if ref[p] == 0 {
        PushChain(next, freelist, free, p);
        next := next[p := freelist];
        freelist := p;
        free := [p] + free;
      }
    }

    method IncreaseNumRef(p: nat)
      requires Valid() && p < |ref| && ref[p] > 0
      modifies this`ref
      ensures Valid() && ref == old(ref)[p := old(ref)[p] + 1]
    {
      ref := ref[p := ref[p] + 1];
    }
  }
}
