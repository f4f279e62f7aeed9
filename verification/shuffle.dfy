/**
  `random.shuffle`, which the crawler applies to its URL list at the start of
  every batch. Python's implementation is the Fisher-Yates shuffle: for `i`
  from `len(x) - 1` down to `1` it swaps `x[i]` with `x[j]` for a random
  `j` in `[0, i]`. The random source is a parameter: `draw(i)` is the raw
  value drawn at step `i`, reduced into `[0, i]`.
 */
module Shuffle {

  function Swap<T>(s: seq<T>, i: nat, j: nat): (r: seq<T>)
    requires i < |s| && j < |s|
    ensures |r| == |s| && r[i] == s[j] && r[j] == s[i]
    ensures forall k :: 0 <= k < |s| && k != i && k != j ==> r[k] == s[k]
    ensures multiset(r) == multiset(s)
  {
    s[i := s[j]][j := s[i]]
  }

  /** The Fisher-Yates steps `i`, `i - 1`, ..., `1`. */
  function ShuffleDown<T>(s: seq<T>, i: nat, draw: nat -> nat): (r: seq<T>)
    requires i < |s|
    ensures |r| == |s|
    ensures multiset(r) == multiset(s)
    decreases i
  {
    if i == 0 then s
    else ShuffleDown(Swap(s, i, draw(i) % (i + 1)), i - 1, draw)
  }

  /** `random.shuffle(s)` with the random draws given by `draw`. */
  function Shuffle<T>(s: seq<T>, draw: nat -> nat): (r: seq<T>)
    ensures |r| == |s|
    ensures multiset(r) == multiset(s)
  {
    if |s| == 0 then s else ShuffleDown(s, |s| - 1, draw)
  }
}
