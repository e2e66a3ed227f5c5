/** Sequence helpers shared by the server and agent models. */
module Seqs {

  /** The indices below `n` that satisfy `p`, in increasing order. */
  function Select(p: nat -> bool, n: nat): (idx: seq<nat>)
    ensures |idx| <= n
    ensures forall k :: 0 <= k < |idx| ==> idx[k] < n && p(idx[k])
    ensures forall k, l :: 0 <= k < l < |idx| ==> idx[k] < idx[l]
    ensures forall i :: 0 <= i < n && p(i) ==> i in idx
  {
    if n == 0 then [] else Select(p, n - 1) + (if p(n - 1) then [n - 1] else [])
  }

  /** The elements of `s` without repetitions, each kept at its first occurrence
      (the key order of a dictionary filled from `s`). */
  function Distinct<T(==)>(s: seq<T>): (d: seq<T>)
    ensures forall k :: 0 <= k < |s| ==> s[k] in d
    ensures forall k :: 0 <= k < |d| ==> d[k] in s
    ensures forall a, b :: 0 <= a < b < |d| ==> d[a] != d[b]
  {
    if s == [] then []
    else
      var prefix := Distinct(s[..|s| - 1]);
      if s[|s| - 1] in prefix then prefix else prefix + [s[|s| - 1]]
  }
}
