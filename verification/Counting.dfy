/** Finite sets of numbers and sequences without repeats. */
module Counting {

  predicate Distinct(s: seq<nat>) {
    forall i, j :: 0 <= i < j < |s| ==> s[i] != s[j]
  }

  /** `s` without its element at `k`. */
  function Without(s: seq<nat>, k: nat): (r: seq<nat>)
    requires k < |s|
    ensures |r| == |s| - 1
  {
    s[..k] + s[k + 1..]
  }

  ghost function UpTo(n: nat): (r: set<nat>)
    ensures |r| == n && forall y :: y in r <==> 0 <= y < n
  {
    if n == 0 then {} else UpTo(n - 1) + {n - 1}
  }

  ghost function Elements(s: seq<nat>): (r: set<nat>)
    ensures forall y :: y in r <==> y in s
    ensures Distinct(s) ==> |r| == |s|
  {
    if s == [] then {} else Elements(s[..|s| - 1]) + {s[|s| - 1]}
  }

  lemma {:induction false} CardMono<T>(a: set<T>, b: set<T>)
    requires a <= b
    ensures |a| <= |b|
  {
    if a != {} {
      var x :| x in a;
      CardMono(a - {x}, b - {x});
    }
  }

  /** Fewer than `n` distinct numbers below `n`, if one is missing. */
  lemma {:induction false} Pigeonhole(s: seq<nat>, n: nat, x: nat)
    requires Distinct(s) && (forall k :: 0 <= k < |s| ==> s[k] < n) && x < n && x !in s
    ensures |s| < n
  {
    assert Elements(s) <= UpTo(n) - {x};
    CardMono(Elements(s), UpTo(n) - {x});
  }
}
