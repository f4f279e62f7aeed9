/**
  The command-line driver of data_collector.py, from the URL lists it has
  read to the end of the crawl: drop the closed-world URLs from the
  open-world list, pick this host's share of the open world, set up the
  crawler, crawl, and stop the crawl whatever happened.
 */
module Collector {
  import opened FileTree
  import opened Lines
  import opened Crawler
  import Dedup
  import Shard

  /**
    How the run ends: the host is missing from the server list, the crawler
    could not set up its directories, or the crawl ran and was stopped.
   */
  datatype CollectionEnd = NotListed | InitFailed(error: FsError) | Finished(status: Status, stop: Stop)

  /** The crawler's URL configuration from the lists read and the share range. */
  function Configure(closeWorld: seq<string>, openWorld: seq<string>, isOpenWorld: bool, range: Shard.Range): (c: Config)
    ensures !isOpenWorld ==> ActiveList(c) == closeWorld
    ensures multiset(c.openWorld) == if isOpenWorld then multiset(openWorld) - multiset(closeWorld) else multiset{}
    ensures c.isOpenWorld == isOpenWorld && c.closeWorld == closeWorld
    ensures c.startIndex == range.start && c.endIndex == range.end
    ensures isOpenWorld ==> ActiveList(c) == PyList.Slice(Dedup.RemoveClosedWorld(openWorld, closeWorld), range.start, range.end)
  {
    Config(closeWorld, if isOpenWorld then Dedup.RemoveClosedWorld(openWorld, closeWorld) else [],
           isOpenWorld, range.start, range.end)
  }

  predicate LineFree(urls: seq<string>) {
    forall k :: 0 <= k < |urls| ==> NoLineBreak(urls[k])
  }

  /** A list whose elements all occur in a line-free list is line-free. */
  lemma LineFreeSubset(urls: seq<string>, from: seq<string>)
    requires LineFree(from) && forall k :: 0 <= k < |urls| ==> urls[k] in from
    ensures LineFree(urls)
  {
    forall k | 0 <= k < |urls| ensures NoLineBreak(urls[k]) {
      var i :| 0 <= i < |from| && from[i] == urls[k];
    }
  }

  /** Every element of a Python slice is an element of the list. */
  lemma SliceFromList(s: seq<string>, i: int, j: int)
    ensures forall k :: 0 <= k < |PyList.Slice(s, i, j)| ==> PyList.Slice(s, i, j)[k] in s
  {
    var r := PyList.Slice(s, i, j);
    forall k | 0 <= k < |r| ensures r[k] in s {
      assert r[k] == s[PyList.SliceBound(i, |s|) + k];
    }
  }

  /** Every element of a list whose multiset is below another's occurs in the other. */
  lemma SubMultisetElements(urls: seq<string>, from: seq<string>)
    requires multiset(urls) <= multiset(from)
    ensures forall k :: 0 <= k < |urls| ==> urls[k] in from
  {
    forall k | 0 <= k < |urls| ensures urls[k] in from {
      assert urls[k] in multiset(urls);
    }
  }

  /** Lists read with `splitlines()` keep every active list line-free, whatever the range. */
  lemma ActiveListLineFree(closeWorld: seq<string>, openWorld: seq<string>, isOpenWorld: bool, range: Shard.Range)
    requires LineFree(closeWorld) && LineFree(openWorld)
    ensures LineFree(ActiveList(Configure(closeWorld, openWorld, isOpenWorld, range)))
  {
    if isOpenWorld {
      var kept := Dedup.RemoveClosedWorld(openWorld, closeWorld);
      SubMultisetElements(kept, openWorld);
      LineFreeSubset(kept, openWorld);
      SliceFromList(kept, range.start, range.end);
      LineFreeSubset(PyList.Slice(kept, range.start, range.end), kept);
    }
  }

  /**
    The `try`/`finally` of data_collector.py:93-103 on a crawler whose
    directories are set up: `crawl(num_batches)`, then `stop_crawl()`.
   */
  method CrawlAndStop(start: Tree, crawl: Path, cfg: Config, numBatches: int, initialVisit: VisitSlot,
                      shuffle: Shuffler, outcome: (nat, nat) -> Outcome)
    returns (fs: Tree, orders: seq<seq<string>>, attempts: seq<seq<Attempt>>, status: Status, stop: Stop)
    requires Permutes(shuffle)
    requires IsDir(start, crawl) && UrlListPath(crawl) in start && start[UrlListPath(crawl)].File?
    ensures IsDir(fs, crawl)
    ensures UrlListPath(crawl) in fs && fs[UrlListPath(crawl)] == start[UrlListPath(crawl)]
    ensures |attempts| <= Max0(numBatches)
    ensures orders == BatchOrders(ActiveList(cfg), shuffle, |attempts|)
    ensures forall j :: 0 <= j < |attempts| ==> Visits(attempts[j], orders[j], outcome, j)
    ensures forall j :: 0 <= j < |attempts| - 1 ==> |attempts[j]| == |ActiveList(cfg)|
    ensures status.Completed? ==>
      |attempts| == Max0(numBatches) && forall j :: 0 <= j < |attempts| ==> |attempts[j]| == |ActiveList(cfg)|
    ensures CrawlLog(start, fs, crawl, attempts)
    ensures numBatches <= 0 ==> status.Completed?
    ensures status.Interrupted? <==> EndsInInterrupt(attempts)
    ensures stop == StopCrawl(FinalSlot(initialVisit, attempts))
    ensures (numBatches <= 0 || |ActiveList(cfg)| == 0) ==> AttemptCount(attempts) == 0
    ensures initialVisit != Unassigned ==> !stop.MissingAttribute?
    ensures AttemptCount(attempts) == 0 ==> stop == StopCrawl(initialVisit)
    ensures RoomForVisits(start, crawl) ==> !status.Aborted?
  {
    var slot;
    fs, slot, orders, attempts, status := Crawl(crawl, cfg, start, initialVisit, numBatches, shuffle, outcome);
    UrlListSurvives(start, fs, crawl, attempts);
    FinalSlotAssigned(initialVisit, attempts);
    if |ActiveList(cfg)| == 0 {
      EmptyListNoAttempts(ActiveList(cfg), shuffle, outcome, orders, attempts);
    }
    stop := StopCrawl(slot);
  }

  /**
    data_collector.py:52-103 after the files are read: the lists come from
    `splitlines()`, the crawler is built in `output`, `crawl(num_batches)`
    runs inside `try`, and `stop_crawl()` runs in `finally`. `initialVisit`
    is the crawler's `visit` attribute before the crawl.
   */
  method RunCollection(t: Tree, output: Path, closeWorldText: string, openWorldText: string, isOpenWorld: bool,
                       n: int, servers: seq<string>, me: string, numBatches: int, initialVisit: VisitSlot,
                       shuffle: Shuffler, outcome: (nat, nat) -> Outcome)
    returns (fs: Tree, cfg: Config, orders: seq<seq<string>>, attempts: seq<seq<Attempt>>, end: CollectionEnd)
    requires Permutes(shuffle)
    ensures end.NotListed? <==> isOpenWorld && me !in servers
    ensures !end.Finished? ==> orders == [] && attempts == []
    ensures !end.NotListed? ==> (end.InitFailed? <==> InitCrawlDirs(t, output, cfg).Err?)
    ensures !end.NotListed? ==>
      cfg == Configure(SplitLines(closeWorldText), if isOpenWorld then SplitLines(openWorldText) else [], isOpenWorld,
                       Shard.OpenWorldRange(isOpenWorld, n, servers, me).range)
    ensures end.Finished? && numBatches <= 0 ==> end.status.Completed?
    ensures end.Finished? ==>
      && cfg.closeWorld == SplitLines(closeWorldText)
      && (!isOpenWorld ==> ActiveList(cfg) == SplitLines(closeWorldText))
      && IsDir(fs, output + ["crawl"])
      && UrlListPath(output + ["crawl"]) in fs && fs[UrlListPath(output + ["crawl"])].File?
      && SplitLines(fs[UrlListPath(output + ["crawl"])].contents) == ActiveList(cfg)
      && |attempts| <= Max0(numBatches)
      && orders == BatchOrders(ActiveList(cfg), shuffle, |attempts|)
      && (forall j :: 0 <= j < |attempts| ==> Visits(attempts[j], orders[j], outcome, j))
      && (forall j :: 0 <= j < |attempts| - 1 ==> |attempts[j]| == |ActiveList(cfg)|)
      && (end.status.Completed? ==>
            |attempts| == Max0(numBatches) && forall j :: 0 <= j < |attempts| ==> |attempts[j]| == |ActiveList(cfg)|)
      && InitCrawlDirs(t, output, cfg).Ok?
      && CrawlLog(InitCrawlDirs(t, output, cfg).value.0, fs, output + ["crawl"], attempts)
      && (end.status.Interrupted? <==> EndsInInterrupt(attempts))
      && end.stop == StopCrawl(FinalSlot(initialVisit, attempts))
    ensures end.Finished? && (numBatches <= 0 || |ActiveList(cfg)| == 0) ==> AttemptCount(attempts) == 0
    ensures end.Finished? && initialVisit != Unassigned ==> !end.stop.MissingAttribute?
    ensures end.Finished? && AttemptCount(attempts) == 0 ==> end.stop == StopCrawl(initialVisit)
    ensures end.Finished? && WellFormed(t) && !Exists(t, output + ["crawl"]) ==> !end.status.Aborted?
  {
    fs, cfg, orders, attempts := t, Config([], [], isOpenWorld, 0, 0), [], [];
    var closeWorld := SplitLines(closeWorldText);
    var openWorld := if isOpenWorld then SplitLines(openWorldText) else [];
    var share := Shard.OpenWorldRange(isOpenWorld, n, servers, me);
    if share.NotListed? {
      end := NotListed;
      return;
    }
    cfg := Configure(closeWorld, openWorld, isOpenWorld, share.range);
    var init := InitCrawlDirs(t, output, cfg);
    if init.Err? {
      end := InitFailed(init.error);
      return;
    }
    ActiveListLineFree(closeWorld, openWorld, isOpenWorld, share.range);
    FreshCrawlDirHasRoom(t, output, cfg);
    var status, stop;
    fs, orders, attempts, status, stop := CrawlAndStop(init.value.0, init.value.1, cfg, numBatches, initialVisit, shuffle, outcome);
    end := Finished(status, stop);
  }

  /** The `visit` attribute as `Crawler.__init__` leaves it: annotated, never assigned. */
  const AnnotatedVisit: VisitSlot := Unassigned

  /** The evidently intended start: `self.visit = None` in `__init__`. */
  const InitialisedVisit: VisitSlot := NoVisit

  /**
    The run as written. When no URL gets attempted (no batches, an empty
    active list, or an OS error before the first `label`), `stop_crawl`
    raises `AttributeError` from the `finally` block.
   */
  method RunCollectionAsWritten(t: Tree, output: Path, closeWorldText: string, openWorldText: string,
                                isOpenWorld: bool, n: int, servers: seq<string>, me: string, numBatches: int,
                                shuffle: Shuffler, outcome: (nat, nat) -> Outcome)
    returns (fs: Tree, cfg: Config, attempts: seq<seq<Attempt>>, end: CollectionEnd)
    requires Permutes(shuffle)
    ensures end.NotListed? <==> isOpenWorld && me !in servers
    ensures !end.NotListed? ==> (end.InitFailed? <==> InitCrawlDirs(t, output, cfg).Err?)
    ensures end.Finished? && numBatches <= 0 ==> end.status.Completed?
    ensures end.Finished? && AttemptCount(attempts) == 0 ==> end.stop == MissingAttribute
    ensures end.Finished? && numBatches <= 0 ==> end.stop == MissingAttribute
  {
    var orders;
    fs, cfg, orders, attempts, end := RunCollection(t, output, closeWorldText, openWorldText, isOpenWorld, n, servers, me,
                                            numBatches, AnnotatedVisit, shuffle, outcome);
  }

  /** A concrete run that ends in `AttributeError`: zero batches over a closed world, in a fresh directory. */
  method ZeroBatchesRaise(shuffle: Shuffler, outcome: (nat, nat) -> Outcome) returns (end: CollectionEnd)
    requires Permutes(shuffle)
    ensures end == Finished(Completed, MissingAttribute)
  {
    var fs, cfg, attempts;
    var out, crawl, logs := ["output"], ["output", "crawl"], ["output", "crawl", "logs"];
    assert Parent(crawl) == out && Parent(logs) == crawl;
    assert out + ["crawl"] == crawl && out + ["crawl", "logs"] == logs;
    assert !Exists(map[], out);
    assert CreateDir(map[], out) == Ok((map[out := Dir], out));
    assert CreateDir(map[out := Dir], crawl) == Ok((map[out := Dir, crawl := Dir], crawl));
    assert CreateDir(map[out := Dir, crawl := Dir], logs) == Ok((map[out := Dir, crawl := Dir, logs := Dir], logs));
    assert CreateCrawlDir(map[], out) == Ok((map[out := Dir, crawl := Dir, logs := Dir], crawl, logs));
    fs, cfg, attempts, end := RunCollectionAsWritten(map[], ["output"], "a.example\n", "", false, 0, [], "", 0,
                                                     shuffle, outcome);
    assert Parent(UrlListPath(crawl)) == crawl;
    assert InitCrawlDirs(map[], out, cfg).Ok?;
  }

  /** The run with `visit` initialised to `None`: `stop_crawl` never raises. */
  method RunCollectionCorrected(t: Tree, output: Path, closeWorldText: string, openWorldText: string,
                                isOpenWorld: bool, n: int, servers: seq<string>, me: string, numBatches: int,
                                shuffle: Shuffler, outcome: (nat, nat) -> Outcome)
    returns (fs: Tree, cfg: Config, attempts: seq<seq<Attempt>>, end: CollectionEnd)
    requires Permutes(shuffle)
    ensures end.Finished? ==> !end.stop.MissingAttribute?
    ensures end.Finished? && AttemptCount(attempts) == 0 ==> end.stop == NothingToClean
  {
    var orders;
    fs, cfg, orders, attempts, end := RunCollection(t, output, closeWorldText, openWorldText, isOpenWorld, n, servers, me,
                                            numBatches, InitialisedVisit, shuffle, outcome);
  }
}
