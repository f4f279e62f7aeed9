/**
  Line-oriented text: the URL lists the command-line driver reads with
  `str.splitlines()`, and the `urls-crawled.csv` and `label` files the crawler
  writes as one URL per line, each followed by `"\n"`.
 */
module Lines {

  /** The characters `str.splitlines()` breaks lines at (`"\r\n"` counts as one break). */
  predicate IsLineBreak(c: char) {
    var n := c as int;
    n == 10 || n == 11 || n == 12 || n == 13 || n == 28 || n == 29 || n == 30
    || n == 133 || n == 0x2028 || n == 0x2029
  }

  predicate NoLineBreak(s: string) {
    forall i :: 0 <= i < |s| ==> !IsLineBreak(s[i])
  }

  /** Each URL followed by `"\n"`, in list order. */
  function UrlListText(urls: seq<string>): string
  {
    if |urls| == 0 then "" else urls[0] + "\n" + UrlListText(urls[1..])
  }

  /** The index of the first line break, or `|s|` when there is none. */
  function FirstBreak(s: string): (i: nat)
    ensures i <= |s|
    ensures NoLineBreak(s[..i])
    ensures i < |s| ==> IsLineBreak(s[i])
    decreases |s|
  {
    if |s| == 0 || IsLineBreak(s[0]) then 0
    else
      var i := 1 + FirstBreak(s[1..]);
      assert s[..i] == [s[0]] + s[1..][..i - 1];
      i
  }

  /** Where the line after the break at `i` starts: `"\r\n"` is one break. */
  function LineEnd(s: string, i: nat): (next: nat)
    requires i < |s|
    ensures i < next <= |s|
  {
    if s[i] == '\r' && i + 1 < |s| && s[i + 1] == '\n' then i + 2 else i + 1
  }

  /** `str.splitlines()`: the lines without their terminators; no empty line after a final break. */
  function SplitLines(s: string): (lines: seq<string>)
    ensures forall k :: 0 <= k < |lines| ==> NoLineBreak(lines[k])
    decreases |s|
  {
    if |s| == 0 then []
    else
      var i := FirstBreak(s);
      if i == |s| then
        assert s[..i] == s;
        [s]
      else
        [s[..i]] + SplitLines(s[LineEnd(s, i)..])
  }

  /** The first break comes no later than any break. */
  lemma {:induction false} FirstBreakNoLater(s: string, j: nat)
    requires j < |s| && IsLineBreak(s[j])
    ensures FirstBreak(s) <= j
    decreases j
  {
    if !IsLineBreak(s[0]) {
      FirstBreakNoLater(s[1..], j - 1);
    }
  }

  /** The first break of `u + "\n" + rest` is the one after `u` when `u` has none. */
  lemma {:induction false} FirstBreakAfterLine(u: string, rest: string)
    requires NoLineBreak(u)
    ensures FirstBreak(u + "\n" + rest) == |u|
    decreases |u|
  {
    var s := u + "\n" + rest;
    if |u| > 0 {
      assert s[1..] == u[1..] + "\n" + rest;
      FirstBreakAfterLine(u[1..], rest);
    }
  }

  /**
    Reading back a written URL list line by line gives the list again, as
    long as no URL contains a line break (lists read with `splitlines()`
    never do).
   */
  lemma {:induction false} UrlListRoundTrip(urls: seq<string>)
    requires forall k :: 0 <= k < |urls| ==> NoLineBreak(urls[k])
    ensures SplitLines(UrlListText(urls)) == urls
    decreases |urls|
  {
    if |urls| > 0 {
      var s := UrlListText(urls);
      var rest := UrlListText(urls[1..]);
      assert s == urls[0] + "\n" + rest;
      FirstBreakAfterLine(urls[0], rest);
      assert s[..|urls[0]|] == urls[0];
      assert s[|urls[0]|] == '\n';
      assert s[|urls[0]| + 1..] == rest;
      UrlListRoundTrip(urls[1..]);
    }
  }

  /** One line terminator as `splitlines()` recognises it: `"\r\n"` or a single break character. */
  predicate IsTerminator(t: string) {
    t == "\r\n" || (|t| == 1 && IsLineBreak(t[0]))
  }

  /** Each line followed by its terminator, in order. */
  function Rejoin(lines: seq<string>, ends: seq<string>): string
    requires |lines| == |ends|
  {
    if |lines| == 0 then "" else lines[0] + ends[0] + Rejoin(lines[1..], ends[1..])
  }

  /** A lone `"\r"` followed by an empty line ended by `"\n"`: a `"\r\n"` wrongly split in two. */
  predicate SplitsCrLf(lines: seq<string>, ends: seq<string>, k: int)
    requires |ends| == |lines|
  {
    0 <= k < |ends| - 1 && ends[k] == "\r" && lines[k + 1] == "" && ends[k + 1] == "\n"
  }

  /**
    `ends` terminates `lines`: one terminator per line, the last possibly
    empty, no line holds a break, and `"\r\n"` is always one terminator.
   */
  predicate Terminates(lines: seq<string>, ends: seq<string>) {
    && |ends| == |lines|
    && (forall k :: 0 <= k < |ends| ==> IsTerminator(ends[k]) || (k == |ends| - 1 && ends[k] == ""))
    && (forall k :: 0 <= k < |lines| ==> NoLineBreak(lines[k]))
    && (forall k :: 0 <= k < |ends| ==> !SplitsCrLf(lines, ends, k))
  }

  lemma TerminatesCons(line: string, end: string, lines: seq<string>, ends: seq<string>)
    requires IsTerminator(end) && NoLineBreak(line) && Terminates(lines, ends)
    requires end == "\r" && |lines| > 0 && lines[0] == "" ==> ends[0] != "\n"
    ensures Terminates([line] + lines, [end] + ends)
    ensures Rejoin([line] + lines, [end] + ends) == line + end + Rejoin(lines, ends)
  {
    var all, ls := [end] + ends, [line] + lines;
    assert all[1..] == ends && ls[1..] == lines;
    assert forall k :: 1 <= k < |all| ==> all[k] == ends[k - 1] && ls[k] == lines[k - 1];
    forall k | 0 <= k < |all| ensures !SplitsCrLf(ls, all, k) {
      if 1 <= k {
        assert !SplitsCrLf(lines, ends, k - 1);
      }
    }
  }

  /** `"a\r\nb"` is two lines: reading its `"\r\n"` as `"\r"` and an empty `"\n"` line is no split. */
  lemma CrLfIsOneBreak()
    ensures !Terminates(["a", "", "b"], ["\r", "\n", ""])
  {
    assert SplitsCrLf(["a", "", "b"], ["\r", "\n", ""], 0);
  }

  /** A text has its lines rebuilt by some terminators. */
  ghost predicate Rebuildable(s: string) {
    exists ends :: Terminates(SplitLines(s), ends) && Rejoin(SplitLines(s), ends) == s
  }

  /**
    Nothing is lost: the text is the lines of `splitlines()`, each followed
    by a terminator, except that the last one may have none.
   */
  lemma {:induction false} SplitLinesRebuilds(s: string)
    ensures exists ends :: Terminates(SplitLines(s), ends) && Rejoin(SplitLines(s), ends) == s
    decreases |s|
  {
    var lines := SplitLines(s);
    if |s| == 0 {
      assert Terminates(lines, []) && Rejoin(lines, []) == s;
    } else if FirstBreak(s) == |s| {
      assert lines == [s];
      assert Terminates(lines, [""]) && Rejoin(lines, [""]) == s;
    } else {
      var i := FirstBreak(s);
      var next := LineEnd(s, i);
      SplitLinesRebuilds(s[next..]);
      RebuildsAfterBreak(s, i, next);
    }
  }

  /** `splitlines()` past the first break: the line before it, then the lines after its terminator. */
  lemma SplitLinesAtBreak(s: string, i: nat, next: nat)
    requires i == FirstBreak(s) < |s| && next == LineEnd(s, i)
    ensures SplitLines(s) == [s[..i]] + SplitLines(s[next..])
  {
  }

  /** The characters from a break to the start of the next line form one terminator. */
  lemma TerminatorAt(s: string, i: nat)
    requires i < |s| && IsLineBreak(s[i])
    ensures IsTerminator(s[i..LineEnd(s, i)])
  {
    if LineEnd(s, i) == i + 2 {
      assert s[i..i + 2] == [s[i], s[i + 1]];
    } else {
      assert s[i..i + 1] == [s[i]];
    }
  }

  /** A `"\r"` taken alone as a terminator is not followed by `"\n"`. */
  lemma LoneCrNotBeforeNewline(s: string, i: nat, next: nat)
    requires i < |s| && next == LineEnd(s, i)
    ensures s[i..next] == "\r" && |s[next..]| > 0 ==> s[next..][0] != '\n'
  {
    if s[i..next] == "\r" {
      assert s[i] == '\r' && next == i + 1;
    }
  }

  lemma ThreeParts(s: string, i: nat, j: nat)
    requires i <= j <= |s|
    ensures s == s[..i] + s[i..j] + s[j..]
  {
  }

  /** A line and its terminator in front of lines that rebuild `t` rebuild the longer text. */
  lemma RebuildCons(s: string, line: string, end: string, t: string, lines: seq<string>, tail: seq<string>)
    requires s == line + end + t && IsTerminator(end) && NoLineBreak(line) && lines == [line] + tail
    requires end == "\r" && |t| > 0 ==> t[0] != '\n'
    requires exists rest :: Terminates(tail, rest) && Rejoin(tail, rest) == t
    ensures exists ends :: Terminates(lines, ends) && Rejoin(lines, ends) == s
  {
    var rest :| Terminates(tail, rest) && Rejoin(tail, rest) == t;
    assert |tail| > 0 ==> t == tail[0] + rest[0] + Rejoin(tail[1..], rest[1..]);
    TerminatesCons(line, end, tail, rest);
    assert Terminates(lines, [end] + rest) && Rejoin(lines, [end] + rest) == s;
  }

  /** The inductive step of `SplitLinesRebuilds`: one line and its terminator in front of the rest. */
  lemma RebuildsAfterBreak(s: string, i: nat, next: nat)
    requires i == FirstBreak(s) < |s|
    requires next == LineEnd(s, i)
    requires Rebuildable(s[next..])
    ensures Rebuildable(s)
  {
    SplitLinesAtBreak(s, i, next);
    TerminatorAt(s, i);
    ThreeParts(s, i, next);
    LoneCrNotBeforeNewline(s, i, next);
    RebuildCons(s, s[..i], s[i..next], s[next..], SplitLines(s), SplitLines(s[next..]));
  }

  /** Helper for `SplitLinesRoundTrip`: the text around a `"\n"`. */
  lemma AroundNewline(s: string, i: nat)
    requires i < |s| && s[i] == '\n'
    ensures s == s[..i] + "\n" + s[i + 1..]
  {
    assert s[..i] + "\n" + s[i + 1..] == s[..i] + s[i..i + 1] + s[i + 1..];
  }

  lemma UrlListTextCons(line: string, lines: seq<string>)
    ensures UrlListText([line] + lines) == line + "\n" + UrlListText(lines)
  {
    assert ([line] + lines)[1..] == lines;
  }

  /** Helper for `SplitLinesRoundTrip`: a suffix of newline-only text is newline-only. */
  lemma NewlinesOnlySuffix(s: string, i: nat)
    requires i <= |s| && forall j :: 0 <= j < |s| && IsLineBreak(s[j]) ==> s[j] == '\n'
    ensures forall j :: 0 <= j < |s[i..]| && IsLineBreak(s[i..][j]) ==> s[i..][j] == '\n'
  {
    assert forall j :: 0 <= j < |s[i..]| ==> s[i..][j] == s[i + j];
  }

  /**
    The converse of `UrlListRoundTrip`: text whose only breaks are `"\n"` and
    which ends in one (or is empty) is exactly its lines written back.
   */
  lemma {:induction false} SplitLinesRoundTrip(s: string)
    requires forall i :: 0 <= i < |s| && IsLineBreak(s[i]) ==> s[i] == '\n'
    requires |s| > 0 ==> s[|s| - 1] == '\n'
    ensures UrlListText(SplitLines(s)) == s
    decreases |s|
  {
    if |s| > 0 {
      var i := FirstBreak(s);
      FirstBreakNoLater(s, |s| - 1);
      var rest := s[i + 1..];
      SplitLinesAtBreak(s, i, i + 1);
      NewlinesOnlySuffix(s, i + 1);
      SplitLinesRoundTrip(rest);
      UrlListTextCons(s[..i], SplitLines(rest));
      AroundNewline(s, i);
    }
  }
}
