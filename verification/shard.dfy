/**
  Open-world sharding (data_collector.py): every cooperating server crawls its
  own index range of the open-world list. With `S` servers, this server's rank
  `r` (the position of its address in the server list) and `n` the target
  number of open-world URLs, the range is `[int(n * r / S), int(n * (r + 1) / S))`.

  The source divides in floating point; here the quotient is exact and `int()`
  truncates it toward zero, which is what the source computes whenever the
  float rounding is harmless.
 */
module Shard {
  import opened PyList

  /** `int(a / b)` for an exact quotient: truncation toward zero (Dafny's `/` rounds down). */
  function TruncDiv(a: int, b: int): (q: int)
    requires b > 0
    ensures a >= 0 ==> q == a / b
    ensures a >= 0 ==> q * b <= a < q * b + b
    ensures a < 0 ==> q == -((-a) / b)
  {
    if a >= 0 then a / b else -((-a) / b)
  }

  /** The first index of shard `r`; the end of shard `r` is the start of shard `r + 1`. */
  function ShardStart(n: int, r: nat, servers: nat): int
    requires servers > 0
  {
    TruncDiv(n * r, servers)
  }

  function ShardEnd(n: int, r: nat, servers: nat): int
    requires servers > 0
  {
    TruncDiv(n * (r + 1), servers)
  }

  datatype Range = Range(start: int, end: int)

  /** How the index range came out: assigned, or the `assert myip in servers` failed. */
  datatype Assignment = Assigned(range: Range) | NotListed

  /**
    data_collector.py: in open-world mode the rank is the first occurrence of
    this host's address in the server list, which must occur; in closed-world
    mode both indices are 0.
   */
  function OpenWorldRange(isOpenWorld: bool, n: int, servers: seq<string>, me: string): (a: Assignment)
    ensures !isOpenWorld ==> a == Assigned(Range(0, 0))
    ensures isOpenWorld ==> (a.NotListed? <==> me !in servers)
    ensures isOpenWorld && a.Assigned? ==>
      exists r :: 0 <= r < |servers| && servers[r] == me && (forall k :: 0 <= k < r ==> servers[k] != me)
        && a.range == Range(ShardStart(n, r, |servers|), ShardEnd(n, r, |servers|))
    ensures isOpenWorld && a.Assigned? && n >= 0 ==> 0 <= a.range.start <= a.range.end <= n
  {
    if !isOpenWorld then Assigned(Range(0, 0))
    else match IndexOf(servers, me)
      case None => NotListed
      case Some(r) =>
        ShardBounds(n, r, |servers|);
        Assigned(Range(ShardStart(n, r, |servers|), ShardEnd(n, r, |servers|)))
  }

  /** Multiplying by a non-negative factor keeps the order. */
  lemma MulMonotone(n: int, a: int, b: int)
    requires n >= 0 && a <= b
    ensures n * a <= n * b
  {
    var k := b - a;
    assert n * b == n * a + n * k;
  }

  /** Floor division is monotone in the dividend. */
  lemma DivMonotone(a: int, b: int, d: int)
    requires 0 <= a <= b && d > 0
    ensures a / d <= b / d
  {
    var qa, qb := a / d, b / d;
    assert qb * d <= b;
    if qa > qb {
      MulMonotone(d, qb + 1, qa);
    }
  }

  /** Multiplying and then dividing by the same positive number is the identity. */
  lemma MulDivCancel(n: int, d: int)
    requires d > 0
    ensures n * d / d == n
  {
    var q, m := n * d / d, n * d % d;
    assert n * d == q * d + m;
    assert (n - q) * d == m by {
      assert (n - q) * d == n * d - q * d;
    }
    if n - q >= 1 {
      MulMonotone(d, 1, n - q);
    } else if n - q <= -1 {
      MulMonotone(d, n - q, -1);
    }
  }

  /** Shard starts never decrease with the rank. */
  lemma StartMonotone(n: int, r1: nat, r2: nat, servers: nat)
    requires n >= 0 && servers > 0 && r1 <= r2
    ensures ShardStart(n, r1, servers) <= ShardStart(n, r2, servers)
  {
    MulMonotone(n, r1, r2);
    DivMonotone(n * r1, n * r2, servers);
  }

  /** Every shard lies within `[0, n]` and none is inverted. */
  lemma ShardBounds(n: int, r: nat, servers: nat)
    requires servers > 0 && r < servers
    ensures n >= 0 ==> 0 <= ShardStart(n, r, servers) <= ShardEnd(n, r, servers) <= n
  {
    if n >= 0 {
      StartMonotone(n, 0, r, servers);
      StartMonotone(n, r, r + 1, servers);
      StartMonotone(n, r + 1, servers, servers);
      StartAtZeroAndAtEnd(n, servers);
    }
  }

  /** Rank 0 starts at index 0 and the rank one past the last starts at `n`. */
  lemma StartAtZeroAndAtEnd(n: int, servers: nat)
    requires servers > 0
    ensures ShardStart(n, 0, servers) == 0
    ensures ShardStart(n, servers, servers) == n
  {
    if n >= 0 {
      MulMonotone(n, 0, servers);
      MulDivCancel(n, servers);
    } else {
      MulDivCancel(-n, servers);
      assert n * servers == -((-n) * servers);
    }
  }

  /** Every index in `[0, n)` belongs to some shard. */
  lemma {:induction false} ShardsCover(n: int, servers: nat, i: int, from: nat)
    requires n >= 0 && servers > 0 && from < servers
    requires ShardStart(n, from, servers) <= i < n
    ensures exists r :: from <= r < servers && ShardStart(n, r, servers) <= i < ShardEnd(n, r, servers)
    decreases servers - from
  {
    if i >= ShardEnd(n, from, servers) {
      if from + 1 == servers {
        StartAtZeroAndAtEnd(n, servers);
      } else {
        ShardsCover(n, servers, i, from + 1);
      }
    }
  }

  /** Different ranks get disjoint shards: the earlier one ends before the later one starts. */
  lemma ShardsDisjoint(n: int, servers: nat, r1: nat, r2: nat)
    requires n >= 0 && servers > 0 && r1 < r2 < servers
    ensures ShardEnd(n, r1, servers) <= ShardStart(n, r2, servers)
  {
    StartMonotone(n, r1 + 1, r2, servers);
  }

  /** Together: each index in `[0, n)` lies in exactly one shard, and every shard index lies in `[0, n)`. */
  lemma ShardsTile(n: int, servers: nat, i: int)
    requires n >= 0 && servers > 0
    ensures 0 <= i < n <==> exists r :: 0 <= r < servers && ShardStart(n, r, servers) <= i < ShardEnd(n, r, servers)
    ensures forall r1, r2 ::
      0 <= r1 < servers && 0 <= r2 < servers
      && ShardStart(n, r1, servers) <= i < ShardEnd(n, r1, servers)
      && ShardStart(n, r2, servers) <= i < ShardEnd(n, r2, servers)
      ==> r1 == r2
  {
    if 0 <= i < n {
      StartAtZeroAndAtEnd(n, servers);
      ShardsCover(n, servers, i, 0);
    }
    forall r | 0 <= r < servers && ShardStart(n, r, servers) <= i < ShardEnd(n, r, servers)
      ensures 0 <= i < n
    {
      ShardBounds(n, r, servers);
    }
    forall r1, r2 |
      0 <= r1 < servers && 0 <= r2 < servers
      && ShardStart(n, r1, servers) <= i < ShardEnd(n, r1, servers)
      && ShardStart(n, r2, servers) <= i < ShardEnd(n, r2, servers)
      ensures r1 == r2
    {
      if r1 < r2 {
        ShardsDisjoint(n, servers, r1, r2);
      } else if r2 < r1 {
        ShardsDisjoint(n, servers, r2, r1);
      }
    }
  }

  /** The open-world lists of ranks `0 .. k-1`, concatenated in rank order. */
  function ShardLists<T>(urls: seq<T>, n: int, servers: nat, k: nat): seq<T>
    requires servers > 0
  {
    if k == 0 then []
    else ShardLists(urls, n, servers, k - 1) + Slice(urls, ShardStart(n, k - 1, servers), ShardEnd(n, k - 1, servers))
  }

  /**
    The slices the servers crawl, in rank order, are exactly the first `n`
    URLs of the list (all of it when it is shorter).
   */
  lemma {:induction false} ShardListsPartition<T>(urls: seq<T>, n: int, servers: nat)
    requires n >= 0 && servers > 0
    ensures ShardLists(urls, n, servers, servers) == urls[..Min(n, |urls|)]
  {
    ShardListsPrefix(urls, n, servers, servers);
    StartAtZeroAndAtEnd(n, servers);
  }

  lemma {:induction false} ShardListsPrefix<T>(urls: seq<T>, n: int, servers: nat, k: nat)
    requires n >= 0 && servers > 0 && k <= servers
    ensures ShardStart(n, k, servers) >= 0
    ensures ShardLists(urls, n, servers, k) == urls[..Min(ShardStart(n, k, servers), |urls|)]
  {
    if k > 0 {
      ShardListsPrefix(urls, n, servers, k - 1);
      StartMonotone(n, k - 1, k, servers);
      var a, b := ShardStart(n, k - 1, servers), ShardStart(n, k, servers);
      assert ShardEnd(n, k - 1, servers) == b;
      AppendSlice(urls, a, b);
    }
  }

  /** A prefix followed by the slice that starts where it ends is the longer prefix. */
  lemma AppendSlice<T>(urls: seq<T>, a: nat, b: nat)
    requires a <= b
    ensures urls[..Min(a, |urls|)] + Slice(urls, a, b) == urls[..Min(b, |urls|)]
  {
    var lo, hi := Min(a, |urls|), Min(b, |urls|);
    assert Slice(urls, a, b) == urls[lo..hi];
    assert urls[..lo] + urls[lo..hi] == urls[..hi];
  }

  /** The worked example: 10000 open-world URLs over four servers. */
  lemma FourServerExample()
    ensures ShardStart(10000, 0, 4) == 0 && ShardEnd(10000, 0, 4) == 2500
    ensures ShardStart(10000, 1, 4) == 2500 && ShardEnd(10000, 1, 4) == 5000
    ensures ShardStart(10000, 2, 4) == 5000 && ShardEnd(10000, 2, 4) == 7500
    ensures ShardStart(10000, 3, 4) == 7500 && ShardEnd(10000, 3, 4) == 10000
  {
  }
}
