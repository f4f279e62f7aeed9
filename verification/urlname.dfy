/**
  `get_filename_from_url(url, prefix)` (helper/utils.py): strips every
  `https://`, then every `http://`, then every `www.` from the URL, turns each
  character outside `[A-Za-z0-9._]` into `-`, collapses runs of `-` into one,
  and prepends `prefix + "-"`.
 */
module UrlName {

  /** Python's `str.replace(pat, rep)`: every occurrence, found left to right without overlaps. */
  function ReplaceAll(s: string, pat: string, rep: string): string
    requires |pat| > 0
    decreases |s|
  {
    if |s| < |pat| then s
    else if s[..|pat|] == pat then rep + ReplaceAll(s[|pat|..], pat, rep)
    else [s[0]] + ReplaceAll(s[1..], pat, rep)
  }

  /** Python's `str.split(sep)`: the pieces between the occurrences `ReplaceAll` finds. */
  function Split(s: string, sep: string): (parts: seq<string>)
    requires |sep| > 0
    ensures |parts| >= 1
    ensures IsPrefixOf(parts[0], s)
    decreases |s|
  {
    if |s| < |sep| then [s]
    else if s[..|sep|] == sep then [""] + Split(s[|sep|..], sep)
    else
      var rest := Split(s[1..], sep);
      [[s[0]] + rest[0]] + rest[1..]
  }

  /** Python's `sep.join(parts)`. */
  function Join(sep: string, parts: seq<string>): string
    requires |parts| >= 1
  {
    if |parts| == 1 then parts[0] else parts[0] + sep + Join(sep, parts[1..])
  }

  predicate IsPrefixOf(a: string, b: string) {
    |a| <= |b| && a == b[..|a|]
  }

  /** `pat` occurs in `s` starting at index `i`. */
  predicate OccursAt(s: string, pat: string, i: int) {
    0 <= i && i + |pat| <= |s| && s[i..i + |pat|] == pat
  }

  /** `pat` occurs somewhere in `s`. */
  predicate Occurs(s: string, pat: string) {
    exists i :: 0 <= i <= |s| && OccursAt(s, pat, i)
  }

  lemma JoinConsFirst(sep: string, c: char, parts: seq<string>)
    requires |parts| >= 1
    ensures Join(sep, [[c] + parts[0]] + parts[1..]) == [c] + Join(sep, parts)
  {
    var parts' := [[c] + parts[0]] + parts[1..];
    if |parts| > 1 {
      assert parts'[1..] == parts[1..];
    }
  }

  /** `s.replace(pat, rep) == rep.join(s.split(pat))`. */
  lemma {:induction false} ReplaceIsJoinOfSplit(s: string, pat: string, rep: string)
    requires |pat| > 0
    ensures ReplaceAll(s, pat, rep) == Join(rep, Split(s, pat))
    decreases |s|
  {
    if |s| < |pat| {
    } else if s[..|pat|] == pat {
      ReplaceIsJoinOfSplit(s[|pat|..], pat, rep);
      var parts := [""] + Split(s[|pat|..], pat);
      assert parts[1..] == Split(s[|pat|..], pat);
    } else {
      ReplaceIsJoinOfSplit(s[1..], pat, rep);
      JoinConsFirst(rep, s[0], Split(s[1..], pat));
    }
  }

  /** Replacing a pattern by itself changes nothing. */
  lemma {:induction false} ReplaceBySelf(s: string, pat: string)
    requires |pat| > 0
    ensures ReplaceAll(s, pat, pat) == s
    decreases |s|
  {
    if |s| < |pat| {
    } else if s[..|pat|] == pat {
      ReplaceBySelf(s[|pat|..], pat);
      assert s == s[..|pat|] + s[|pat|..];
    } else {
      ReplaceBySelf(s[1..], pat);
      assert s == [s[0]] + s[1..];
    }
  }

  /** Gluing the pieces back with the separator gives the original string. */
  lemma SplitJoinRoundTrip(s: string, sep: string)
    requires |sep| > 0
    ensures Join(sep, Split(s, sep)) == s
  {
    ReplaceIsJoinOfSplit(s, sep, sep);
    ReplaceBySelf(s, sep);
  }

  /**
    Putting a character in front of a piece that is free of `sep` keeps it
    free, as long as the result is a prefix of a string that does not start
    with `sep`.
   */
  lemma ConsKeepsFree(c: char, w: string, s: string, sep: string)
    requires |sep| > 0 && !Occurs(w, sep) && IsPrefixOf([c] + w, s)
    requires !(|sep| <= |s| && s[..|sep|] == sep)
    ensures !Occurs([c] + w, sep)
  {
    var piece := [c] + w;
    forall i | 0 <= i <= |piece| ensures !OccursAt(piece, sep, i) {
      if i + |sep| <= |piece| {
        if i == 0 {
          assert piece[..|sep|] == s[..|sep|];
        } else {
          assert piece[i..i + |sep|] == w[i - 1..i - 1 + |sep|];
          assert !OccursAt(w, sep, i - 1);
        }
      }
    }
  }

  /**
    No piece contains the separator, so the occurrences `split` and `replace`
    act on are all the occurrences there are between the pieces.
   */
  lemma {:induction false} SplitPiecesAreFree(s: string, sep: string, k: nat)
    requires |sep| > 0 && k < |Split(s, sep)|
    ensures !Occurs(Split(s, sep)[k], sep)
    decreases |s|
  {
    var parts := Split(s, sep);
    if |s| < |sep| {
      assert parts[k] == s;
    } else if s[..|sep|] == sep {
      if k > 0 {
        SplitPiecesAreFree(s[|sep|..], sep, k - 1);
      }
    } else {
      var rest := Split(s[1..], sep);
      if k > 0 {
        SplitPiecesAreFree(s[1..], sep, k);
        assert parts[k] == rest[k];
      } else {
        SplitPiecesAreFree(s[1..], sep, 0);
        assert IsPrefixOf([s[0]] + rest[0], s) by {
          assert s == [s[0]] + s[1..];
        }
        ConsKeepsFree(s[0], rest[0], s, sep);
      }
    }
  }

  /** The characters `re.sub(r'[^A-Za-z0-9._]', '-', ...)` leaves alone. */
  predicate IsKept(c: char) {
    ('A' <= c <= 'Z') || ('a' <= c <= 'z') || ('0' <= c <= '9') || c == '.' || c == '_'
  }

  /** Kept characters and `-`: everything a sanitised name may contain. */
  predicate AllowedChars(s: string) {
    forall i :: 0 <= i < |s| ==> IsKept(s[i]) || s[i] == '-'
  }

  predicate NoDoubleDash(s: string) {
    forall i :: 0 <= i < |s| - 1 ==> !(s[i] == '-' && s[i + 1] == '-')
  }

  lemma AllowedTail(s: string)
    requires |s| > 0
    ensures AllowedChars(s) ==> AllowedChars(s[1..])
  {
    if AllowedChars(s) {
      forall i | 0 <= i < |s[1..]| ensures IsKept(s[1..][i]) || s[1..][i] == '-' {
        assert s[1..][i] == s[i + 1];
      }
    }
  }

  lemma NoDoubleDashTail(s: string)
    requires |s| > 0
    ensures NoDoubleDash(s) ==> NoDoubleDash(s[1..])
  {
    if NoDoubleDash(s) {
      forall i | 0 <= i < |s[1..]| - 1 ensures !(s[1..][i] == '-' && s[1..][i + 1] == '-') {
        assert s[1..][i] == s[i + 1] && s[1..][i + 1] == s[i + 2];
      }
    }
  }

  /** The kept characters of `s`, in order. */
  function Kept(s: string): string
  {
    if |s| == 0 then [] else (if IsKept(s[0]) then [s[0]] else []) + Kept(s[1..])
  }

  /** `re.sub(r'[^A-Za-z0-9._]', '-', s)`. */
  function DashOthers(s: string): (r: string)
    ensures |r| == |s|
    ensures AllowedChars(r)
    ensures Kept(r) == Kept(s)
    ensures AllowedChars(s) ==> r == s
    ensures forall i :: 0 <= i < |s| ==> r[i] == if IsKept(s[i]) then s[i] else '-'
    decreases |s|
  {
    if |s| == 0 then []
    else
      var rest := DashOthers(s[1..]);
      var r := [if IsKept(s[0]) then s[0] else '-'] + rest;
      assert r[1..] == rest;
      AllowedTail(s);
      assert forall i :: 1 <= i < |s| ==> r[i] == rest[i - 1] && s[i] == s[1..][i - 1];
      r
  }

  /**
    `re.sub(r'-+', '-', s)`: every maximal run of `-` becomes a single `-`.
    A `-` followed by another `-` is dropped, so each run keeps its last one.
   */
  function CollapseDashes(s: string): (r: string)
    ensures |r| <= |s|
    ensures |s| > 0 ==> |r| > 0 && r[0] == s[0]
    ensures NoDoubleDash(r)
    ensures Kept(r) == Kept(s)
    ensures AllowedChars(s) ==> AllowedChars(r)
    ensures NoDoubleDash(s) ==> r == s
    decreases |s|
  {
    if |s| == 0 then []
    else if s[0] == '-' && |s| > 1 && s[1] == '-' then
      var r := CollapseDashes(s[1..]);
      assert !NoDoubleDash(s) by { assert s[0] == '-' && s[1] == '-'; }
      AllowedTail(s);
      r
    else
      var rest := CollapseDashes(s[1..]);
      var r := [s[0]] + rest;
      assert r[1..] == rest;
      assert s == [s[0]] + s[1..];
      NoDoubleDashTail(s);
      AllowedTail(s);
      ConsKeepsShape(s[0], rest);
      r
  }

  /**
    Dropping one dash of a `--` pair does not change the collapsed result.
    With `NoDoubleDash(s) ==> CollapseDashes(s) == s` this fixes the result:
    it is what remains once such dashes are dropped one at a time.
   */
  lemma {:induction false} CollapseDropsOneDash(s: string, i: nat)
    requires i + 1 < |s| && s[i] == '-' && s[i + 1] == '-'
    ensures CollapseDashes(s[..i] + s[i + 1..]) == CollapseDashes(s)
    decreases i
  {
    var t := s[..i] + s[i + 1..];
    if i == 0 {
      assert t == s[1..];
    } else {
      assert t[0] == s[0] && |t| == |s| - 1;
      assert t[1..] == s[1..][..i - 1] + s[1..][i..];
      CollapseDropsOneDash(s[1..], i - 1);
      if i == 1 {
        assert t[1] == s[2];
      } else {
        assert t[1] == s[1];
      }
    }
  }

  /** Putting a character in front: what `CollapseDashes` needs about its second branch. */
  lemma ConsKeepsShape(c: char, rest: string)
    ensures Kept([c] + rest) == (if IsKept(c) then [c] else []) + Kept(rest)
    ensures NoDoubleDash(rest) && (c == '-' && |rest| > 0 ==> rest[0] != '-') ==> NoDoubleDash([c] + rest)
    ensures (IsKept(c) || c == '-') && AllowedChars(rest) ==> AllowedChars([c] + rest)
  {
    var r := [c] + rest;
    assert r[1..] == rest;
    if NoDoubleDash(rest) && (c == '-' && |rest| > 0 ==> rest[0] != '-') {
      forall i | 0 <= i < |r| - 1 ensures !(r[i] == '-' && r[i + 1] == '-') {
        if i > 0 {
          assert r[i] == rest[i - 1] && r[i + 1] == rest[i];
        }
      }
    }
  }

  /** The name part: non-kept characters dashed, runs of dashes collapsed. */
  function Sanitise(s: string): (r: string)
    ensures AllowedChars(r)
    ensures NoDoubleDash(r)
    ensures Kept(r) == Kept(s)
    ensures |r| == 0 <==> |s| == 0
  {
    CollapseDashes(DashOthers(s))
  }

  /** Sanitising a sanitised name returns it unchanged. */
  lemma SanitiseIdempotent(s: string)
    ensures Sanitise(Sanitise(s)) == Sanitise(s)
  {
  }

  /** The URL with the scheme prefixes and `www.` removed everywhere, in the source's order. */
  function StripUrl(url: string): string
  {
    ReplaceAll(ReplaceAll(ReplaceAll(url, "https://", ""), "http://", ""), "www.", "")
  }

  /** Removal by `ReplaceAll(_, pat, "")` concatenates the pieces between the occurrences. */
  lemma RemovalJoinsPieces(s: string, pat: string)
    requires |pat| > 0
    ensures ReplaceAll(s, pat, "") == Join("", Split(s, pat))
    ensures forall k :: 0 <= k < |Split(s, pat)| ==> !Occurs(Split(s, pat)[k], pat)
  {
    ReplaceIsJoinOfSplit(s, pat, "");
    forall k | 0 <= k < |Split(s, pat)| ensures !Occurs(Split(s, pat)[k], pat) {
      SplitPiecesAreFree(s, pat, k);
    }
  }

  /** `get_filename_from_url(url, prefix)`. */
  function FilenameFromUrl(url: string, prefix: string): (r: string)
    ensures |r| > |prefix| && r[..|prefix| + 1] == prefix + "-"
    ensures var name := r[|prefix| + 1..];
      && AllowedChars(name)
      && NoDoubleDash(name)
      && Kept(name) == Kept(StripUrl(url))
      && Sanitise(name) == name
      && (|name| == 0 <==> |StripUrl(url)| == 0)
      && name == Sanitise(StripUrl(url))
  {
    var name := Sanitise(StripUrl(url));
    var r := prefix + "-" + name;
    assert r[|prefix| + 1..] == name;
    r
  }
}
