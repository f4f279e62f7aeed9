/**
  Removal of closed-world URLs from the open-world list (data_collector.py):
  for each closed-world URL in turn, if it occurs in the open-world list, the
  first equal element is removed. Matching is exact string equality.
 */
module Dedup {
  import opened PyList

  /**
    `urls.remove(u) if u in urls else None`: the first copy of `u`, if any,
    is dropped and the rest keep their order.
   */
  function RemoveIfPresent(urls: seq<string>, u: string): (r: seq<string>)
    ensures multiset(r) == multiset(urls) - multiset{u}
    ensures IsSubsequence(r, urls)
    ensures u in urls ==> exists i :: 0 <= i < |urls| && urls[i] == u && u !in urls[..i] && r == urls[..i] + urls[i + 1..]
    ensures u !in urls ==> r == urls
  {
    if u in urls then
      var i := IndexOf(urls, u).value;
      DeletionIsSubsequence(urls, i);
      assert u !in urls[..i];
      Remove(urls, u)
    else
      SubsequenceReflexive(urls);
      assert multiset(urls)[u] == 0;
      urls
  }

  /**
    The open-world list after every closed-world URL has been removed once.
    Each closed-world entry cancels at most one copy of an equal open-world
    entry, so what survives is the multiset difference.
   */
  function RemoveClosedWorld(openWorld: seq<string>, closedWorld: seq<string>): (r: seq<string>)
    ensures multiset(r) == multiset(openWorld) - multiset(closedWorld)
    decreases |closedWorld|
  {
    if |closedWorld| == 0 then openWorld
    else
      var u := closedWorld[0];
      var once := RemoveIfPresent(openWorld, u);
      assert closedWorld == [u] + closedWorld[1..];
      assert multiset(once) == multiset(openWorld) - multiset{u};
      assert (multiset(openWorld) - multiset{u}) - multiset(closedWorld[1..])
          == multiset(openWorld) - (multiset{u} + multiset(closedWorld[1..]));
      RemoveClosedWorld(once, closedWorld[1..])
  }

  /** The result keeps the open-world order: it is a subsequence of the input. */
  lemma {:induction false} RemovalKeepsOrder(openWorld: seq<string>, closedWorld: seq<string>)
    ensures IsSubsequence(RemoveClosedWorld(openWorld, closedWorld), openWorld)
    decreases |closedWorld|
  {
    if |closedWorld| == 0 {
      SubsequenceReflexive(openWorld);
    } else {
      var u := closedWorld[0];
      var once := RemoveIfPresent(openWorld, u);
      RemovalKeepsOrder(once, closedWorld[1..]);
      SubsequenceTransitive(RemoveClosedWorld(once, closedWorld[1..]), once, openWorld);
    }
  }

  predicate NoDuplicates(s: seq<string>) {
    forall i, j :: 0 <= i < j < |s| ==> s[i] != s[j]
  }

  /** Without duplicates in `s`, every element occurs exactly once. */
  lemma {:induction false} DistinctCountsOne(s: seq<string>, u: string)
    requires NoDuplicates(s)
    ensures multiset(s)[u] == if u in s then 1 else 0
    decreases |s|
  {
    if |s| > 0 {
      assert s == [s[0]] + s[1..];
      DistinctCountsOne(s[1..], u);
      if u == s[0] {
        assert u !in s[1..] by {
          forall k | 0 <= k < |s[1..]| ensures s[1..][k] != u {
            assert s[1..][k] == s[k + 1];
          }
        }
      }
    }
  }

  /**
    When the open-world list has no duplicates, the closed-world and the
    resulting open-world lists are disjoint, and every other URL survives.
   */
  lemma DistinctListsBecomeDisjoint(openWorld: seq<string>, closedWorld: seq<string>, u: string)
    requires NoDuplicates(openWorld)
    ensures u in RemoveClosedWorld(openWorld, closedWorld) <==> u in openWorld && u !in closedWorld
  {
    var r := RemoveClosedWorld(openWorld, closedWorld);
    DistinctCountsOne(openWorld, u);
    var inOpen, inClosed := multiset(openWorld)[u], multiset(closedWorld)[u];
    assert multiset(r)[u] == if inOpen <= inClosed then 0 else inOpen - inClosed;
    assert u in r <==> multiset(r)[u] > 0;
    assert u in closedWorld <==> inClosed > 0;
  }

  /** With duplicates only one copy goes per closed-world entry. */
  lemma DuplicateSurvives()
    ensures RemoveClosedWorld(["a.example", "a.example", "b.example"], ["a.example"]) == ["a.example", "b.example"]
  {
    var ow := ["a.example", "a.example", "b.example"];
    assert IndexOf(ow, "a.example") == Some(0);
    assert RemoveIfPresent(ow, "a.example") == ["a.example", "b.example"];
  }
}
