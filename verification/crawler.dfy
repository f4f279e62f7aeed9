/**
  The crawl orchestration of models/crawler.py: preparing the crawl
  directory, writing the list of URLs to crawl, running `num_batches`
  batches of visits with one directory per visit, and stopping the crawl;
  plus the driver in data_collector.py that runs it and always stops it.

  The file system is the abstract tree of `FileTree`. A visit is an oracle:
  `outcome(b, k)` says how the visit of the `k`-th URL of batch `b` ends
  (its constructor raises, `get()` raises, or `get()` returns with the
  start and end clock readings). `random.shuffle` is `shuffle(b, list)`, any
  function that permutes; `FisherYates(pick)` is the one Python's algorithm
  computes from the random draws `pick(b, i)`.
 */
module Crawler {
  import opened FileTree
  import opened Decimal
  import opened PyList
  import opened Lines
  import Shuffle

  /** The exceptions the visit loop distinguishes. */
  datatype Raised = TimeoutException | OtherException | KeyboardInterrupt

  /** How one visit attempt ends, as far as the crawler can observe. */
  datatype Outcome =
    | ConstructorRaises(raised: Raised)
    | GetRaises(raised: Raised)
    | GetReturns(startTime: nat, endTime: nat)
  {
    predicate Interrupts() {
      !GetReturns? && raised == KeyboardInterrupt
    }
  }

  /**
    The crawler's `visit` attribute: never assigned (only annotated in
    `__init__`), `None`, or a constructed visit of `url` whose directory is
    `UrlDir(d, batch, site)`.
   */
  datatype VisitSlot = Unassigned | NoVisit | Live(url: string, batch: nat, site: nat)

  /** One attempted URL: what happened and what the crawler did about it. */
  datatype Attempt = Attempt(url: string, outcome: Outcome, timeWritten: bool, cleanedUp: bool)

  /** How `crawl` ended: normally, by a re-raised interrupt, or by an OS error outside the visit handlers. */
  datatype Status = Completed | Interrupted | Aborted(error: FsError)

  /** The crawler's URL configuration. */
  datatype Config = Config(
    closeWorld: seq<string>,
    openWorld: seq<string>,
    isOpenWorld: bool,
    startIndex: int,
    endIndex: int)

  /** The list a crawl works through: the open-world slice `[start:end]`, or the closed-world list. */
  function ActiveList(c: Config): (r: seq<string>)
    ensures !c.isOpenWorld ==> r == c.closeWorld
    ensures c.isOpenWorld && 0 <= c.startIndex <= c.endIndex ==>
      r == c.openWorld[Min(c.startIndex, |c.openWorld|)..Min(c.endIndex, |c.openWorld|)]
    ensures c.isOpenWorld && 0 <= c.endIndex <= c.startIndex ==> r == []
  {
    if c.isOpenWorld then Slice(c.openWorld, c.startIndex, c.endIndex) else c.closeWorld
  }

  function BatchDir(d: Path, b: nat): Path {
    d + ["batch-" + NatToString(b)]
  }

  function UrlDir(d: Path, b: nat, k: nat): Path {
    BatchDir(d, b) + ["url-" + NatToString(k)]
  }

  function LabelPath(d: Path, b: nat, k: nat): Path {
    UrlDir(d, b, k) + ["label"]
  }

  function TimePath(d: Path, b: nat, k: nat): Path {
    UrlDir(d, b, k) + ["time"]
  }

  /** The `time` file: the start reading on the first line, the end reading on the second. */
  function TimeText(startTime: nat, endTime: nat): string {
    NatToString(startTime) + "\n" + NatToString(endTime) + "\n"
  }

  /** The random draws of batch `b`. */
  function BatchDraws(pick: (nat, nat) -> nat, b: nat): nat -> nat {
    (i: nat) => pick(b, i)
  }

  /** The shuffler of a crawl: `shuffle(b, list)` is the order of batch `b`. */
  type Shuffler = (nat, seq<string>) -> seq<string>

  /** `shuffle` only ever reorders its input, as `random.shuffle` does. */
  ghost predicate Permutes(shuffle: Shuffler) {
    forall b: nat, list: seq<string> :: multiset(shuffle(b, list)) == multiset(list)
  }

  /** `random.shuffle` as Python implements it, batch `b` using the draws `pick(b, _)`. */
  function FisherYates(pick: (nat, nat) -> nat): Shuffler {
    (b: nat, list: seq<string>) => Shuffle.Shuffle(list, BatchDraws(pick, b))
  }

  /** Python's shuffle qualifies as the crawl's shuffler: every batch order it makes is a permutation. */
  lemma FisherYatesPermutes(pick: (nat, nat) -> nat)
    ensures Permutes(FisherYates(pick))
  {
    forall b: nat, list: seq<string> ensures multiset(FisherYates(pick)(b, list)) == multiset(list) {
      assert FisherYates(pick)(b, list) == Shuffle.Shuffle(list, BatchDraws(pick, b));
    }
  }

  // ---------------------------------------------------------------------
  // Paths of different visits never coincide.

  lemma BatchDirInjective(d: Path, b1: nat, b2: nat)
    requires BatchDir(d, b1) == BatchDir(d, b2)
    ensures b1 == b2
  {
    assert BatchDir(d, b1)[|d|] == "batch-" + NatToString(b1);
    assert BatchDir(d, b2)[|d|] == "batch-" + NatToString(b2);
    NumberedNameInjective("batch-", b1, b2);
  }

  lemma UrlDirInjective(d: Path, b1: nat, k1: nat, b2: nat, k2: nat)
    requires UrlDir(d, b1, k1) == UrlDir(d, b2, k2)
    ensures b1 == b2 && k1 == k2
  {
    assert UrlDir(d, b1, k1)[..|d| + 1] == BatchDir(d, b1);
    assert UrlDir(d, b2, k2)[..|d| + 1] == BatchDir(d, b2);
    BatchDirInjective(d, b1, b2);
    assert UrlDir(d, b1, k1)[|d| + 1] == "url-" + NatToString(k1);
    assert UrlDir(d, b2, k2)[|d| + 1] == "url-" + NatToString(k2);
    NumberedNameInjective("url-", k1, k2);
  }

  /** The shape of the paths one visit writes: both lie inside its batch directory. */
  lemma VisitPathShape(d: Path, b: nat, k: nat)
    ensures |BatchDir(d, b)| == |d| + 1 && |UrlDir(d, b, k)| == |d| + 2
    ensures |LabelPath(d, b, k)| == |d| + 3 && |TimePath(d, b, k)| == |d| + 3
    ensures UrlDir(d, b, k)[..|d| + 1] == BatchDir(d, b)
    ensures LabelPath(d, b, k)[..|d| + 1] == BatchDir(d, b)
    ensures TimePath(d, b, k)[..|d| + 1] == BatchDir(d, b)
    ensures LabelPath(d, b, k)[..|d| + 2] == UrlDir(d, b, k)
    ensures TimePath(d, b, k)[..|d| + 2] == UrlDir(d, b, k)
    ensures LabelPath(d, b, k)[|d| + 2] == "label" && TimePath(d, b, k)[|d| + 2] == "time"
  {
    assert LabelPath(d, b, k)[..|d| + 1] == UrlDir(d, b, k)[..|d| + 1];
    assert TimePath(d, b, k)[..|d| + 1] == UrlDir(d, b, k)[..|d| + 1];
  }

  /** The files of two different visits are different files; a `label` is never a `time`. */
  lemma VisitFilesDistinct(d: Path, b1: nat, k1: nat, b2: nat, k2: nat)
    ensures LabelPath(d, b1, k1) != TimePath(d, b2, k2)
    ensures (b1, k1) != (b2, k2) ==> LabelPath(d, b1, k1) != LabelPath(d, b2, k2)
    ensures (b1, k1) != (b2, k2) ==> TimePath(d, b1, k1) != TimePath(d, b2, k2)
  {
    VisitPathShape(d, b1, k1);
    VisitPathShape(d, b2, k2);
    if LabelPath(d, b1, k1) == LabelPath(d, b2, k2) || TimePath(d, b1, k1) == TimePath(d, b2, k2) {
      UrlDirInjective(d, b1, k1, b2, k2);
    }
  }

  // ---------------------------------------------------------------------
  // What one attempt leaves behind.

  /** `p` lies two levels inside the directory of batch `b`: a visit's `label` or `time`. */
  ghost predicate InsideBatch(d: Path, b: nat, p: Path) {
    |p| == |d| + 3 && p[..|d| + 1] == BatchDir(d, b)
  }

  /** `p` is a directory or file that creating and filling batch `b` may add. */
  ghost predicate MadeForBatch(d: Path, b: nat, p: Path) {
    IsPrefix(p, BatchDir(d, b)) || (|d| + 2 <= |p| <= |d| + 3 && p[..|d| + 1] == BatchDir(d, b))
  }

  /** `p` is where it was before: present exactly when it was, with the same contents. */
  ghost predicate Untouched(before: Tree, after: Tree, p: Path) {
    (p in after <==> p in before) && (p in before ==> after[p] == before[p])
  }

  /**
    The handlers of one attempt: `time` is written only after `get()`
    returned, and then unless a directory is in the way; `cleanup_visit` runs
    exactly when a constructed visit ended in a `TimeoutException` or another
    `Exception` (a failed `time` write included), never on an interrupt.
   */
  ghost predicate Handled(before: Tree, d: Path, b: nat, k: nat, a: Attempt) {
    && (a.timeWritten ==> a.outcome.GetReturns?)
    && (a.outcome.GetReturns? ==>
         (a.timeWritten <==> !(TimePath(d, b, k) in before && before[TimePath(d, b, k)].Dir?)))
    && (a.cleanedUp <==>
         (a.outcome.GetRaises? && a.outcome.raised != KeyboardInterrupt)
         || (a.outcome.GetReturns? && !a.timeWritten))
  }

  /** The visit directory exists, `label` holds the URL and a newline, `time` the two clock readings if written. */
  ghost predicate Recorded(fs: Tree, d: Path, b: nat, k: nat, a: Attempt) {
    && IsDir(fs, UrlDir(d, b, k))
    && LabelPath(d, b, k) in fs && fs[LabelPath(d, b, k)] == File(a.url + "\n")
    && (a.timeWritten && a.outcome.GetReturns? ==>
          TimePath(d, b, k) in fs
          && fs[TimePath(d, b, k)] == File(TimeText(a.outcome.startTime, a.outcome.endTime)))
  }

  /** The `visit` attribute after an attempt: `None` if the constructor raised, else the visit. */
  function SlotAfter(b: nat, k: nat, a: Attempt): VisitSlot {
    if a.outcome.ConstructorRaises? then NoVisit else Live(a.url, b, k)
  }


  /**
    What one step of the visit loop changes: the keys it adds lie on the way
    to the visit directory or are its `label` and, if written, `time`; the
    contents of existing keys change only there.
   */
  ghost predicate ChangedOnly(fs: Tree, next: Tree, d: Path, b: nat, k: nat, timeWritten: bool) {
    && (forall p :: p in fs ==>
          p in next && (next[p] == fs[p] || p == LabelPath(d, b, k) || (timeWritten && p == TimePath(d, b, k))))
    && (forall p :: p in next && p !in fs ==>
          IsPrefix(p, UrlDir(d, b, k)) || p == LabelPath(d, b, k) || (timeWritten && p == TimePath(d, b, k)))
  }

  // ---------------------------------------------------------------------
  // When a visit's set-up raises.

  /** Creating `url-<k>` or then writing its `label` raises: the OS errors a visit does not catch. */
  predicate SetupFails(fs: Tree, d: Path, b: nat, k: nat, url: string) {
    match CreateDir(fs, UrlDir(d, b, k))
    case Err(_) => true
    case Ok(made) => WriteFile(made.0, LabelPath(d, b, k), url + "\n").Err?
  }

  /**
    In a well-formed tree a visit's set-up raises exactly when `url-<k>` is
    missing below a regular file, `url-<k>` is itself a regular file, or a
    directory sits where `label` goes.
   */
  lemma SetupFailsIff(fs: Tree, d: Path, b: nat, k: nat, url: string)
    requires WellFormed(fs)
    ensures SetupFails(fs, d, b, k, url) <==>
      || (!Exists(fs, UrlDir(d, b, k)) && BlockedByFile(fs, UrlDir(d, b, k)))
      || (UrlDir(d, b, k) in fs && fs[UrlDir(d, b, k)].File?)
      || (LabelPath(d, b, k) in fs && fs[LabelPath(d, b, k)].Dir?)
  {
    var u, l := UrlDir(d, b, k), LabelPath(d, b, k);
    VisitPathShape(d, b, k);
    assert Parent(l) == u;
    CreateDirFailsIffBlocked(fs, u);
    if !Exists(fs, u) && !BlockedByFile(fs, u) {
      var t1 := CreateDir(fs, u).value.0;
      assert !IsDir(fs, Parent(l)) && !IsPrefix(l, u);
      assert l !in fs && l !in t1;
    }
  }

  /**
    Room for the crawl's visits under `d`: the tree is well formed, `d` is a
    directory, no `batch-<b>` or `url-<k>` path is a regular file and no
    `label` path is a directory.
   */
  ghost predicate RoomForVisits(fs: Tree, d: Path) {
    && WellFormed(fs)
    && IsDir(fs, d)
    && (forall b: nat :: !(BatchDir(d, b) in fs && fs[BatchDir(d, b)].File?))
    && (forall b: nat, k: nat :: !(UrlDir(d, b, k) in fs && fs[UrlDir(d, b, k)].File?))
    && (forall b: nat, k: nat :: !(LabelPath(d, b, k) in fs && fs[LabelPath(d, b, k)].Dir?))
  }

  /** Creating a directory at most two levels below `d` keeps the room. */
  lemma RoomAfterCreate(fs: Tree, d: Path, p: Path)
    requires RoomForVisits(fs, d) && CreateDir(fs, p).Ok? && |p| <= |d| + 2
    ensures RoomForVisits(CreateDir(fs, p).value.0, d)
  {
    CreateDirFailsIffBlocked(fs, p);
    var t' := CreateDir(fs, p).value.0;
    forall b: nat, k: nat ensures !(LabelPath(d, b, k) in t' && t'[LabelPath(d, b, k)].Dir?) {
      VisitPathShape(d, b, k);
      assert !IsPrefix(LabelPath(d, b, k), p);
    }
  }

  /** Writing a file three levels below `d` keeps the room. */
  lemma RoomAfterWrite(fs: Tree, d: Path, p: Path, c: string)
    requires RoomForVisits(fs, d) && WriteFile(fs, p, c).Ok? && |p| == |d| + 3
    ensures RoomForVisits(WriteFile(fs, p, c).value, d)
  {
    var t' := WriteFile(fs, p, c).value;
    assert d != p;
    forall b: nat ensures !(BatchDir(d, b) in t' && t'[BatchDir(d, b)].File?) {
      VisitPathShape(d, b, 0);
      assert BatchDir(d, b) != p;
    }
    forall b: nat, k: nat ensures !(UrlDir(d, b, k) in t' && t'[UrlDir(d, b, k)].File?) {
      VisitPathShape(d, b, k);
      assert UrlDir(d, b, k) != p;
    }
  }

  /** With room under `d`, creating any `batch-<b>` succeeds and keeps the room. */
  lemma BatchDirUnderRoom(fs: Tree, d: Path, b: nat)
    requires RoomForVisits(fs, d)
    ensures CreateDir(fs, BatchDir(d, b)).Ok? && RoomForVisits(CreateDir(fs, BatchDir(d, b)).value.0, d)
  {
    var p := BatchDir(d, b);
    assert Parent(p) == d;
    MadeDirNotBlocked(fs, p);
    CreateDirFailsIffBlocked(fs, p);
    RoomAfterCreate(fs, d, p);
  }

  /** With room under `d` and `batch-<b>` present, a visit's set-up succeeds and keeps the room. */
  lemma SetupUnderRoom(fs: Tree, d: Path, b: nat, k: nat, url: string)
    requires RoomForVisits(fs, d) && Exists(fs, BatchDir(d, b))
    ensures CreateDir(fs, UrlDir(d, b, k)).Ok?
    ensures WriteFile(CreateDir(fs, UrlDir(d, b, k)).value.0, LabelPath(d, b, k), url + "\n").Ok?
    ensures RoomForVisits(WriteFile(CreateDir(fs, UrlDir(d, b, k)).value.0, LabelPath(d, b, k), url + "\n").value, d)
  {
    var u, l := UrlDir(d, b, k), LabelPath(d, b, k);
    VisitPathShape(d, b, k);
    assert Parent(u) == BatchDir(d, b) && Parent(l) == u;
    MadeDirNotBlocked(fs, u);
    CreateDirFailsIffBlocked(fs, u);
    RoomAfterCreate(fs, d, u);
    var t1 := CreateDir(fs, u).value.0;
    assert IsDir(t1, u);
    RoomAfterWrite(t1, d, l, url + "\n");
  }

  /**
    One visit (crawler.py:113-141): create `url-<k>`, write `label`, set
    `visit` to `None`, construct the visit, `get()` it, write `time`. An OS
    error from the first two steps is returned as `error`; everything later
    is caught by the handlers or is the interrupt they re-raise.
   */
  method VisitOne(d: Path, b: nat, k: nat, url: string, fs: Tree, o: Outcome)
    returns (next: Tree, a: Attempt, error: Option<FsError>)
    ensures ChangedOnly(fs, next, d, b, k, error.None? && a.timeWritten)
    ensures error.Some? <==> SetupFails(fs, d, b, k, url)
    ensures error.Some? ==> SetupFails(next, d, b, k, url)
    ensures RoomForVisits(fs, d) && Exists(fs, BatchDir(d, b)) ==> RoomForVisits(next, d)
    ensures error.None? ==> a.url == url && a.outcome == o
    ensures error.None? ==> Handled(fs, d, b, k, a) && Recorded(next, d, b, k, a)
  {
    VisitPathShape(d, b, k);
    if RoomForVisits(fs, d) && Exists(fs, BatchDir(d, b)) {
      SetupUnderRoom(fs, d, b, k, url);
    }
    next, a, error := fs, Attempt(url, o, false, false), None;
    var made := CreateDir(fs, UrlDir(d, b, k));
    if made.Err? {
      error := Some(made.error);
      return;
    }
    next := made.value.0;
    var labelled := WriteFile(next, LabelPath(d, b, k), url + "\n");
    if labelled.Err? {
      error := Some(labelled.error);
      return;
    }
    next := labelled.value;
    match o {
      case ConstructorRaises(e) =>
      case GetRaises(e) =>
        a := Attempt(url, o, false, e != KeyboardInterrupt);
      case GetReturns(t0, t1) =>
        var timed := WriteFile(next, TimePath(d, b, k), TimeText(t0, t1));
        VisitFilesDistinct(d, b, k, b, k);
        if timed.Ok? {
          if RoomForVisits(next, d) {
            RoomAfterWrite(next, d, TimePath(d, b, k), TimeText(t0, t1));
          }
          next := timed.value;
          a := Attempt(url, o, true, false);
        } else {
          a := Attempt(url, o, false, true);
        }
    }
  }

  /** A step for another visit keeps what an earlier visit recorded. */
  lemma RecordedKept(fs: Tree, next: Tree, d: Path, b: nat, j: nat, k: nat, a: Attempt, timeWritten: bool)
    requires ChangedOnly(fs, next, d, b, k, timeWritten)
    requires j != k && Recorded(fs, d, b, j, a)
    ensures Recorded(next, d, b, j, a)
  {
    VisitPathShape(d, b, j);
    VisitPathShape(d, b, k);
    VisitFilesDistinct(d, b, j, b, k);
    VisitFilesDistinct(d, b, k, b, j);
  }

  /** A step leaves every `time` alone except the one it writes. */
  lemma TimeKept(before: Tree, fs: Tree, next: Tree, d: Path, b: nat, j: nat, k: nat, timeWritten: bool)
    requires ChangedOnly(fs, next, d, b, k, timeWritten)
    requires (j != k || !timeWritten) && Untouched(before, fs, TimePath(d, b, j))
    ensures Untouched(before, next, TimePath(d, b, j))
  {
    VisitPathShape(d, b, j);
    VisitPathShape(d, b, k);
    VisitFilesDistinct(d, b, k, b, j);
    VisitFilesDistinct(d, b, j, b, k);
    assert !IsPrefix(TimePath(d, b, j), UrlDir(d, b, k));
  }

  /** Batch `b` changed `before` only inside its own directory. */
  ghost predicate StaysInBatch(before: Tree, fs: Tree, d: Path, b: nat) {
    && (forall p :: p in before ==> p in fs && (fs[p] == before[p] || InsideBatch(d, b, p)))
    && (forall p :: p in fs && p !in before ==> MadeForBatch(d, b, p))
  }

  /** A step keeps the batch-level frame: changes stay inside batch `b`. */
  lemma BatchFrameKept(before: Tree, fs: Tree, next: Tree, d: Path, b: nat, k: nat, timeWritten: bool)
    requires ChangedOnly(fs, next, d, b, k, timeWritten)
    requires StaysInBatch(before, fs, d, b)
    ensures StaysInBatch(before, next, d, b)
  {
    VisitPathShape(d, b, k);
    forall p | p in next && p !in before
      ensures MadeForBatch(d, b, p)
    {
      if p !in fs && IsPrefix(p, UrlDir(d, b, k)) {
        if |p| <= |d| + 1 {
          assert p == UrlDir(d, b, k)[..|p|] == BatchDir(d, b)[..|p|];
        } else {
          assert p == UrlDir(d, b, k);
        }
      }
    }
  }

  /** Every attempt so far was handled as the source does and left its record in `fs`. */
  ghost predicate AllRecorded(before: Tree, fs: Tree, d: Path, b: nat, done: seq<Attempt>) {
    forall k :: 0 <= k < |done| ==> Handled(before, d, b, k, done[k]) && Recorded(fs, d, b, k, done[k])
  }

  /** Every `time` of the batch not written by an attempt is as it was in `before`. */
  ghost predicate TimesUntouched(before: Tree, fs: Tree, d: Path, b: nat, done: seq<Attempt>) {
    forall k: nat :: !(k < |done| && done[k].timeWritten) ==> Untouched(before, fs, TimePath(d, b, k))
  }

  lemma KeepRecords(before: Tree, fs: Tree, next: Tree, d: Path, b: nat, done: seq<Attempt>, written: bool)
    requires AllRecorded(before, fs, d, b, done) && ChangedOnly(fs, next, d, b, |done|, written)
    ensures AllRecorded(before, next, d, b, done)
  {
    forall j | 0 <= j < |done|
      ensures Recorded(next, d, b, j, done[j])
    {
      RecordedKept(fs, next, d, b, j, |done|, done[j], written);
    }
  }

  lemma AddRecord(before: Tree, fs: Tree, next: Tree, d: Path, b: nat, done: seq<Attempt>, a: Attempt)
    requires AllRecorded(before, next, d, b, done)
    requires Handled(fs, d, b, |done|, a) && Recorded(next, d, b, |done|, a)
    requires Untouched(before, fs, TimePath(d, b, |done|))
    ensures AllRecorded(before, next, d, b, done + [a])
  {
    assert Handled(before, d, b, |done|, a);
  }

  lemma KeepTimes(before: Tree, fs: Tree, next: Tree, d: Path, b: nat, done: seq<Attempt>, extended: seq<Attempt>, written: bool)
    requires TimesUntouched(before, fs, d, b, done) && ChangedOnly(fs, next, d, b, |done|, written)
    requires extended == done || (|extended| == |done| + 1 && extended[..|done|] == done && extended[|done|].timeWritten == written)
    requires extended == done ==> !written
    ensures TimesUntouched(before, next, d, b, extended)
  {
    forall j: nat | !(j < |extended| && extended[j].timeWritten)
      ensures Untouched(before, next, TimePath(d, b, j))
    {
      if j < |done| {
        assert extended[j] == done[j];
      }
      TimeKept(before, fs, next, d, b, j, |done|, written);
    }
  }

  /** The file-system side of a batch so far: records kept, other `time` files untouched, changes inside the batch. */
  ghost predicate BatchLog(before: Tree, fs: Tree, d: Path, b: nat, done: seq<Attempt>) {
    AllRecorded(before, fs, d, b, done) && TimesUntouched(before, fs, d, b, done) && StaysInBatch(before, fs, d, b)
  }

  /** One step of the visit loop keeps the log, with or without a new attempt. */
  lemma StepKeepsLog(before: Tree, fs: Tree, next: Tree, d: Path, b: nat, done: seq<Attempt>, a: Attempt, error: Option<FsError>)
    requires BatchLog(before, fs, d, b, done)
    requires ChangedOnly(fs, next, d, b, |done|, error.None? && a.timeWritten)
    requires error.None? ==> Handled(fs, d, b, |done|, a) && Recorded(next, d, b, |done|, a)
    ensures BatchLog(before, next, d, b, if error.None? then done + [a] else done)
  {
    var written := error.None? && a.timeWritten;
    KeepRecords(before, fs, next, d, b, done, written);
    BatchFrameKept(before, fs, next, d, b, |done|, written);
    if error.Some? {
      KeepTimes(before, fs, next, d, b, done, done, written);
    } else {
      KeepTimes(before, fs, next, d, b, done, done + [a], written);
      AddRecord(before, fs, next, d, b, done, a);
    }
  }

  /** One step of the batch loop: a visit, with the batch log carried over to the tree it leaves. */
  method LoggedVisit(before: Tree, d: Path, b: nat, done: seq<Attempt>, url: string, fs: Tree, o: Outcome)
    returns (next: Tree, a: Attempt, error: Option<FsError>)
    requires BatchLog(before, fs, d, b, done)
    ensures error.None? ==> a.url == url && a.outcome == o
    ensures BatchLog(before, next, d, b, if error.None? then done + [a] else done)
    ensures error.Some? ==> SetupFails(next, d, b, |done|, url)
    ensures RoomForVisits(fs, d) && Exists(fs, BatchDir(d, b)) ==> error.None? && RoomForVisits(next, d)
    ensures Exists(fs, BatchDir(d, b)) ==> Exists(next, BatchDir(d, b))
  {
    next, a, error := VisitOne(d, b, |done|, url, fs, o);
    StepKeepsLog(before, fs, next, d, b, done, a, error);
  }

  /** The `visit` attribute after the attempts `done` of batch `b`, starting from `visit`. */
  function LastSlot(visit: VisitSlot, b: nat, done: seq<Attempt>): VisitSlot {
    if |done| == 0 then visit else SlotAfter(b, |done| - 1, done[|done| - 1])
  }

  /** Everything batch `b` has done after the attempts `done`, in one place. */
  ghost predicate BatchSoFar(before: Tree, d: Path, b: nat, urls: seq<string>, visit: VisitSlot,
                             outcome: (nat, nat) -> Outcome, fs: Tree, slot: VisitSlot, done: seq<Attempt>, status: Status) {
    && Visits(done, urls, outcome, b)
    && BatchLog(before, fs, d, b, done)
    && (status.Interrupted? <==> |done| > 0 && done[|done| - 1].outcome.Interrupts())
    && StopsAtInterrupt(done)
    && slot == LastSlot(visit, b, done)
    && (status.Aborted? ==> |done| < |urls| && SetupFails(fs, d, b, |done|, urls[|done|]))
    && (RoomForVisits(before, d) && Exists(before, BatchDir(d, b)) ==>
          RoomForVisits(fs, d) && Exists(fs, BatchDir(d, b)) && !status.Aborted?)
  }

  /** One pass of the visit loop, from a state where the batch has not stopped. */
  method BatchStep(before: Tree, d: Path, b: nat, urls: seq<string>, visit: VisitSlot,
                   outcome: (nat, nat) -> Outcome, fs: Tree, slot: VisitSlot, done: seq<Attempt>)
    returns (fs': Tree, slot': VisitSlot, done': seq<Attempt>, status': Status)
    requires BatchSoFar(before, d, b, urls, visit, outcome, fs, slot, done, Completed) && |done| < |urls|
    ensures BatchSoFar(before, d, b, urls, visit, outcome, fs', slot', done', status')
    ensures (status'.Aborted? && done' == done) || (|done'| == |done| + 1 && !status'.Aborted?)
  {
    var k := |done|;
    var o := outcome(b, k);
    var next, a, error := LoggedVisit(before, d, b, done, urls[k], fs, o);
    fs' := next;
    if error.Some? {
      slot', done', status' := slot, done, Aborted(error.value);
    } else {
      AppendAttempt(done, urls, outcome, b, a);
      done' := done + [a];
      assert done'[k] == a;
      slot' := SlotAfter(b, k, a);
      status' := if o.Interrupts() then Interrupted else Completed;
    }
  }

  /**
    One batch: each URL in order gets `url-<k>` and is visited. An
    interrupt is re-raised after its attempt; an OS error from `create_dir`
    or from writing `label` ends the loop before any attempt.
   */
  method CrawlBatch(d: Path, b: nat, urls: seq<string>, before: Tree, visit: VisitSlot, outcome: (nat, nat) -> Outcome)
    returns (fs: Tree, slot: VisitSlot, done: seq<Attempt>, status: Status)
    ensures Visits(done, urls, outcome, b)
    ensures status.Completed? ==> |done| == |urls|
    ensures BatchLog(before, fs, d, b, done)
    ensures status.Interrupted? <==> |done| > 0 && done[|done| - 1].outcome.Interrupts()
    ensures StopsAtInterrupt(done)
    ensures slot == LastSlot(visit, b, done)
    ensures status.Aborted? ==> |done| < |urls| && SetupFails(fs, d, b, |done|, urls[|done|])
    ensures RoomForVisits(before, d) && Exists(before, BatchDir(d, b)) ==> RoomForVisits(fs, d) && !status.Aborted?
  {
    fs, slot, done, status := before, visit, [], Completed;
    while |done| < |urls| && status.Completed?
      invariant BatchSoFar(before, d, b, urls, visit, outcome, fs, slot, done, status)
      decreases |urls| - |done|, if status.Completed? then 1 else 0
    {
      fs, slot, done, status := BatchStep(before, d, b, urls, visit, outcome, fs, slot, done);
    }
  }

  /** No attempt before the last one was interrupted. */
  predicate StopsAtInterrupt(done: seq<Attempt>) {
    forall k :: 0 <= k < |done| - 1 ==> !done[k].outcome.Interrupts()
  }

  /** Appending the next URL's attempt to an uninterrupted batch. */
  lemma AppendAttempt(done: seq<Attempt>, urls: seq<string>, outcome: (nat, nat) -> Outcome, b: nat, a: Attempt)
    requires Visits(done, urls, outcome, b) && |done| < |urls|
    requires a.url == urls[|done|] && a.outcome == outcome(b, |done|)
    requires StopsAtInterrupt(done) && (|done| > 0 ==> !done[|done| - 1].outcome.Interrupts())
    ensures Visits(done + [a], urls, outcome, b) && StopsAtInterrupt(done + [a])
  {
    var ext := done + [a];
    forall k | 0 <= k < |ext| - 1
      ensures !ext[k].outcome.Interrupts()
    {
      assert ext[k] == done[k];
    }
  }

  // ---------------------------------------------------------------------
  // The whole crawl: `num_batches` batches over the active list.

  /** Attempt `k` of batch `j` wrote its `time` file. */
  predicate WroteTime(attempts: seq<seq<Attempt>>, j: nat, k: nat) {
    j < |attempts| && k < |attempts[j]| && attempts[j][k].timeWritten
  }

  /** Every attempt of the crawl was handled as the source does and left its record in `fs`. */
  ghost predicate CrawlRecords(tree: Tree, fs: Tree, d: Path, attempts: seq<seq<Attempt>>) {
    forall j, k :: 0 <= j < |attempts| && 0 <= k < |attempts[j]| ==>
      Handled(tree, d, j, k, attempts[j][k]) && Recorded(fs, d, j, k, attempts[j][k])
  }

  /** No `time` file changed except those the crawl wrote. */
  ghost predicate CrawlTimesUntouched(tree: Tree, fs: Tree, d: Path, attempts: seq<seq<Attempt>>) {
    forall j: nat, k: nat :: !WroteTime(attempts, j, k) ==> Untouched(tree, fs, TimePath(d, j, k))
  }

  /** The first `n` batches changed `tree` only inside their own directories. */
  ghost predicate StaysInCrawl(tree: Tree, fs: Tree, d: Path, n: nat) {
    && (forall p :: p in tree ==> p in fs && (fs[p] == tree[p] || exists j :: 0 <= j < n && InsideBatch(d, j, p)))
    && (forall p :: p in fs && p !in tree ==> exists j :: 0 <= j < n && MadeForBatch(d, j, p))
  }

  ghost predicate BatchDirsExist(fs: Tree, d: Path, n: nat) {
    forall j :: 0 <= j < n ==> Exists(fs, BatchDir(d, j))
  }

  /** The file-system side of the crawl so far. */
  ghost predicate CrawlLog(tree: Tree, fs: Tree, d: Path, attempts: seq<seq<Attempt>>) {
    && CrawlRecords(tree, fs, d, attempts)
    && CrawlTimesUntouched(tree, fs, d, attempts)
    && StaysInCrawl(tree, fs, d, |attempts|)
    && BatchDirsExist(fs, d, |attempts|)
  }

  /** A path longer than the directory being created keeps its state. */
  lemma LongerPathUntouched(t: Tree, t': Tree, q: Path, p: Path)
    requires GrowsTowards(t, t', q) && |p| > |q|
    ensures Untouched(t, t', p)
  {
  }

  /** Batch `b`'s directory and files are no file of another batch. */
  lemma OtherBatchOutside(d: Path, b: nat, j: nat, k: nat)
    requires j != b
    ensures !InsideBatch(d, b, LabelPath(d, j, k)) && !InsideBatch(d, b, TimePath(d, j, k))
    ensures !MadeForBatch(d, b, LabelPath(d, j, k)) && !MadeForBatch(d, b, TimePath(d, j, k))
  {
    VisitPathShape(d, j, k);
    VisitPathShape(d, b, k);
    if InsideBatch(d, b, LabelPath(d, j, k)) || InsideBatch(d, b, TimePath(d, j, k))
      || MadeForBatch(d, b, LabelPath(d, j, k)) || MadeForBatch(d, b, TimePath(d, j, k)) {
      BatchDirInjective(d, j, b);
    }
  }

  /** A record of an earlier batch survives creating and filling batch `b`. */
  lemma EarlierRecordKept(fs: Tree, start: Tree, next: Tree, d: Path, b: nat, j: nat, k: nat, a: Attempt)
    requires GrowsTowards(fs, start, BatchDir(d, b)) && StaysInBatch(start, next, d, b)
    requires j != b && Recorded(fs, d, j, k, a)
    ensures Recorded(next, d, j, k, a)
  {
    VisitPathShape(d, j, k);
    OtherBatchOutside(d, b, j, k);
  }

  /** The `time` files of batch `b` are as in `tree` when the batch starts. */
  lemma NewBatchTimesUntouched(tree: Tree, fs: Tree, start: Tree, d: Path, attempts: seq<seq<Attempt>>, k: nat)
    requires CrawlTimesUntouched(tree, fs, d, attempts)
    requires GrowsTowards(fs, start, BatchDir(d, |attempts|))
    ensures Untouched(tree, start, TimePath(d, |attempts|, k))
  {
    VisitPathShape(d, |attempts|, k);
    assert !WroteTime(attempts, |attempts|, k);
    LongerPathUntouched(fs, start, BatchDir(d, |attempts|), TimePath(d, |attempts|, k));
  }

  lemma ExtendRecords(tree: Tree, fs: Tree, start: Tree, next: Tree, d: Path, attempts: seq<seq<Attempt>>, done: seq<Attempt>)
    requires CrawlRecords(tree, fs, d, attempts) && CrawlTimesUntouched(tree, fs, d, attempts)
    requires GrowsTowards(fs, start, BatchDir(d, |attempts|))
    requires BatchLog(start, next, d, |attempts|, done)
    ensures CrawlRecords(tree, next, d, attempts + [done])
  {
    var b := |attempts|;
    var ext: seq<seq<Attempt>> := attempts + [done];
    forall j, k | 0 <= j < |ext| && 0 <= k < |ext[j]|
      ensures Handled(tree, d, j, k, ext[j][k]) && Recorded(next, d, j, k, ext[j][k])
    {
      if j < b {
        assert ext[j] == attempts[j];
        EarlierRecordKept(fs, start, next, d, b, j, k, attempts[j][k]);
      } else {
        assert ext[j] == done;
        NewBatchTimesUntouched(tree, fs, start, d, attempts, k);
        assert Handled(start, d, b, k, done[k]);
      }
    }
  }

  lemma ExtendTimes(tree: Tree, fs: Tree, start: Tree, next: Tree, d: Path, attempts: seq<seq<Attempt>>, done: seq<Attempt>)
    requires CrawlTimesUntouched(tree, fs, d, attempts)
    requires GrowsTowards(fs, start, BatchDir(d, |attempts|))
    requires BatchLog(start, next, d, |attempts|, done)
    ensures CrawlTimesUntouched(tree, next, d, attempts + [done])
  {
    var b := |attempts|;
    var ext: seq<seq<Attempt>> := attempts + [done];
    forall j: nat, k: nat | !WroteTime(ext, j, k)
      ensures Untouched(tree, next, TimePath(d, j, k))
    {
      VisitPathShape(d, j, k);
      if j < b {
        assert ext[j] == attempts[j];
      }
      assert !WroteTime(attempts, j, k);
      LongerPathUntouched(fs, start, BatchDir(d, b), TimePath(d, j, k));
      if j == b {
        assert ext[j] == done;
        assert !(k < |done| && done[k].timeWritten);
      } else {
        OtherBatchOutside(d, b, j, k);
      }
    }
  }

  lemma ExtendFrame(tree: Tree, fs: Tree, start: Tree, next: Tree, d: Path, n: nat)
    requires StaysInCrawl(tree, fs, d, n) && BatchDirsExist(fs, d, n)
    requires GrowsTowards(fs, start, BatchDir(d, n)) && Exists(start, BatchDir(d, n))
    requires StaysInBatch(start, next, d, n)
    ensures StaysInCrawl(tree, next, d, n + 1) && BatchDirsExist(next, d, n + 1)
  {
    forall p | p in tree
      ensures p in next && (next[p] == tree[p] || exists j :: 0 <= j < n + 1 && InsideBatch(d, j, p))
    {
      if next[p] != tree[p] && !InsideBatch(d, n, p) {
        assert fs[p] != tree[p];
        var j :| 0 <= j < n && InsideBatch(d, j, p);
      }
    }
    forall p | p in next && p !in tree
      ensures exists j :: 0 <= j < n + 1 && MadeForBatch(d, j, p)
    {
      if p in fs {
        var j :| 0 <= j < n && MadeForBatch(d, j, p);
      } else {
        assert MadeForBatch(d, n, p);
      }
    }
  }

  /** Creating and filling batch `|attempts|` extends the crawl log by its attempts. */
  lemma ExtendCrawlLog(tree: Tree, fs: Tree, start: Tree, next: Tree, d: Path, attempts: seq<seq<Attempt>>, done: seq<Attempt>)
    requires CrawlLog(tree, fs, d, attempts)
    requires GrowsTowards(fs, start, BatchDir(d, |attempts|)) && Exists(start, BatchDir(d, |attempts|))
    requires BatchLog(start, next, d, |attempts|, done)
    ensures CrawlLog(tree, next, d, attempts + [done])
  {
    ExtendRecords(tree, fs, start, next, d, attempts, done);
    ExtendTimes(tree, fs, start, next, d, attempts, done);
    ExtendFrame(tree, fs, start, next, d, |attempts|);
  }

  /** The `visit` attribute after the attempts so far: that of the last attempt, or the initial one. */
  function FinalSlot(initial: VisitSlot, attempts: seq<seq<Attempt>>): VisitSlot
  {
    if |attempts| == 0 then initial
    else
      var b := |attempts| - 1;
      if |attempts[b]| == 0 then FinalSlot(initial, attempts[..b])
      else SlotAfter(b, |attempts[b]| - 1, attempts[b][|attempts[b]| - 1])
  }

  /** Attempt `k` of batch `j` visited the `k`-th URL of the batch's order, with that visit's outcome. */
  predicate Visits(done: seq<Attempt>, order: seq<string>, outcome: (nat, nat) -> Outcome, j: nat) {
    |done| <= |order| && forall k :: 0 <= k < |done| ==> done[k].url == order[k] && done[k].outcome == outcome(j, k)
  }

  /** The order batch `j` starts from: the active list for the first batch, else the previous batch's order. */
  function Previous(list: seq<string>, orders: seq<seq<string>>, j: nat): seq<string>
    requires j <= |orders|
  {
    if j == 0 then list else orders[j - 1]
  }

  /**
    The orders of the first `n` batches. `random.shuffle(url_list)` shuffles
    the same list object each batch, so each order is a shuffle of the
    previous one, and every order is a permutation of the active list.
   */
  function BatchOrders(list: seq<string>, shuffle: Shuffler, n: nat): (orders: seq<seq<string>>)
    requires Permutes(shuffle)
    ensures |orders| == n
    ensures forall j :: 0 <= j < n ==> multiset(orders[j]) == multiset(list)
    decreases n
  {
    if n == 0 then []
    else
      var prev := BatchOrders(list, shuffle, n - 1);
      var order := shuffle(n - 1, Previous(list, prev, n - 1));
      assert multiset(Previous(list, prev, n - 1)) == multiset(list);
      prev + [order]
  }

  /** The crawl's last attempt was interrupted. */
  predicate EndsInInterrupt(attempts: seq<seq<Attempt>>) {
    |attempts| > 0 && var last := attempts[|attempts| - 1]; |last| > 0 && last[|last| - 1].outcome.Interrupts()
  }

  /** Only the very last attempt can have been interrupted. */
  predicate InterruptsOnlyLast(attempts: seq<seq<Attempt>>) {
    forall j, k :: 0 <= j < |attempts| && 0 <= k < |attempts[j]| && attempts[j][k].outcome.Interrupts() ==>
      j == |attempts| - 1 && k == |attempts[j]| - 1
  }

  /**
    One iteration of the batch loop (crawler.py:102-145): create
    `batch-<b>`, shuffle the list in place, and visit it in the new order.
    `created` is false when `create_dir` raised.
   */
  method RunBatch(tree: Tree, d: Path, list: seq<string>, fs: Tree, attempts: seq<seq<Attempt>>, visit: VisitSlot,
                  shuffle: Shuffler, outcome: (nat, nat) -> Outcome)
    returns (next: Tree, order: seq<string>, done: seq<Attempt>, slot: VisitSlot, status: Status, created: bool)
    requires CrawlLog(tree, fs, d, attempts)
    ensures created <==> CreateDir(fs, BatchDir(d, |attempts|)).Ok?
    ensures !created ==> status == Aborted(CreateDir(fs, BatchDir(d, |attempts|)).error) && next == fs && slot == visit
    ensures created && status.Aborted? ==> |done| < |order| && SetupFails(next, d, |attempts|, |done|, order[|done|])
    ensures RoomForVisits(fs, d) ==> created && !status.Aborted? && RoomForVisits(next, d)
    ensures created ==> order == shuffle(|attempts|, list)
    ensures created ==> CrawlLog(tree, next, d, attempts + [done])
    ensures created ==> Visits(done, order, outcome, |attempts|) && (status.Completed? ==> |done| == |order|)
    ensures created ==> (status.Interrupted? <==> |done| > 0 && done[|done| - 1].outcome.Interrupts())
    ensures created ==> StopsAtInterrupt(done)
    ensures created ==> slot == LastSlot(visit, |attempts|, done)
  {
    var b := |attempts|;
    order, done, slot := list, [], visit;
    var made := CreateDir(fs, BatchDir(d, b));
    if made.Err? {
      next, status, created := fs, Aborted(made.error), false;
      return;
    }
    created := true;
    if RoomForVisits(fs, d) {
      BatchDirUnderRoom(fs, d, b);
    }
    order := shuffle(b, list);
    next, slot, done, status := FillBatch(tree, d, fs, made.value.0, attempts, order, visit, outcome);
  }

  /** The batch loop of one iteration, in the tree where `batch-<b>` was just created. */
  method FillBatch(tree: Tree, d: Path, fs: Tree, start: Tree, attempts: seq<seq<Attempt>>, order: seq<string>,
                   visit: VisitSlot, outcome: (nat, nat) -> Outcome)
    returns (next: Tree, slot: VisitSlot, done: seq<Attempt>, status: Status)
    requires CrawlLog(tree, fs, d, attempts)
    requires GrowsTowards(fs, start, BatchDir(d, |attempts|)) && Exists(start, BatchDir(d, |attempts|))
    ensures status.Aborted? ==> |done| < |order| && SetupFails(next, d, |attempts|, |done|, order[|done|])
    ensures RoomForVisits(start, d) ==> !status.Aborted? && RoomForVisits(next, d)
    ensures CrawlLog(tree, next, d, attempts + [done])
    ensures Visits(done, order, outcome, |attempts|) && (status.Completed? ==> |done| == |order|)
    ensures status.Interrupted? <==> |done| > 0 && done[|done| - 1].outcome.Interrupts()
    ensures StopsAtInterrupt(done)
    ensures slot == LastSlot(visit, |attempts|, done)
  {
    next, slot, done, status := CrawlBatch(d, |attempts|, order, start, visit, outcome);
    ExtendCrawlLog(tree, fs, start, next, d, attempts, done);
  }

  lemma FinalSlotExtend(initial: VisitSlot, attempts: seq<seq<Attempt>>, done: seq<Attempt>)
    ensures FinalSlot(initial, attempts + [done])
      == if |done| == 0 then FinalSlot(initial, attempts) else SlotAfter(|attempts|, |done| - 1, done[|done| - 1])
  {
    assert (attempts + [done])[..|attempts|] == attempts;
  }

  function Max0(n: int): nat {
    if n < 0 then 0 else n
  }

  /** Everything the crawl has done after `|attempts|` batches, in one place. */
  ghost predicate CrawlSoFar(d: Path, cfg: Config, tree: Tree, visit: VisitSlot, shuffle: Shuffler,
                             outcome: (nat, nat) -> Outcome, fs: Tree, slot: VisitSlot,
                             orders: seq<seq<string>>, attempts: seq<seq<Attempt>>, status: Status) {
    && Permutes(shuffle)
    && orders == BatchOrders(ActiveList(cfg), shuffle, |attempts|)
    && (forall j :: 0 <= j < |attempts| ==> Visits(attempts[j], orders[j], outcome, j))
    && (forall j :: 0 <= j < |attempts| && (j < |attempts| - 1 || status.Completed?) ==>
          |attempts[j]| == |ActiveList(cfg)|)
    && CrawlLog(tree, fs, d, attempts)
    && (status.Interrupted? <==> EndsInInterrupt(attempts))
    && InterruptsOnlyLast(attempts)
    && slot == FinalSlot(visit, attempts)
    && (status.Aborted? ==> AbortedBy(fs, d, orders, attempts))
    && (RoomForVisits(tree, d) ==> RoomForVisits(fs, d) && !status.Aborted?)
  }

  /**
    Why a crawl ends with an OS error: `create_dir` of the next batch
    raised, or the set-up of the next URL of the last batch did.
   */
  predicate AbortedBy(fs: Tree, d: Path, orders: seq<seq<string>>, attempts: seq<seq<Attempt>>)
    requires |orders| == |attempts|
  {
    || CreateDir(fs, BatchDir(d, |attempts|)).Err?
    || (&& |attempts| > 0
        && var j := |attempts| - 1;
        |attempts[j]| < |orders[j]| && SetupFails(fs, d, j, |attempts[j]|, orders[j][|attempts[j]|]))
  }

  /** One pass of the batch loop, from a state where the crawl has not stopped. */
  method CrawlStep(d: Path, cfg: Config, tree: Tree, visit: VisitSlot, shuffle: Shuffler,
                   outcome: (nat, nat) -> Outcome, fs: Tree, slot: VisitSlot,
                   orders: seq<seq<string>>, attempts: seq<seq<Attempt>>)
    returns (fs': Tree, slot': VisitSlot, orders': seq<seq<string>>, attempts': seq<seq<Attempt>>, status': Status)
    requires CrawlSoFar(d, cfg, tree, visit, shuffle, outcome, fs, slot, orders, attempts, Completed)
    ensures CrawlSoFar(d, cfg, tree, visit, shuffle, outcome, fs', slot', orders', attempts', status')
    ensures (status'.Aborted? && attempts' == attempts && fs' == fs) || |attempts'| == |attempts| + 1
  {
    var list := Previous(ActiveList(cfg), orders, |attempts|);
    var next, order, done, s, st, created := RunBatch(tree, d, list, fs, attempts, slot, shuffle, outcome);
    if !created {
      fs', slot', orders', attempts', status' := fs, slot, orders, attempts, st;
      return;
    }
    ExtendCrawlSoFar(d, cfg, tree, visit, shuffle, outcome, fs, slot, orders, attempts, next, order, done, s, st);
    fs', slot', orders', attempts', status' := next, s, orders + [order], attempts + [done], st;
  }

  /** What a created batch adds to the crawl so far, as `RunBatch` reports it. */
  lemma ExtendCrawlSoFar(d: Path, cfg: Config, tree: Tree, visit: VisitSlot, shuffle: Shuffler,
                         outcome: (nat, nat) -> Outcome, fs: Tree, slot: VisitSlot,
                         orders: seq<seq<string>>, attempts: seq<seq<Attempt>>,
                         next: Tree, order: seq<string>, done: seq<Attempt>, s: VisitSlot, st: Status)
    requires CrawlSoFar(d, cfg, tree, visit, shuffle, outcome, fs, slot, orders, attempts, Completed)
    requires order == shuffle(|attempts|, Previous(ActiveList(cfg), orders, |attempts|))
    requires CrawlLog(tree, next, d, attempts + [done])
    requires Visits(done, order, outcome, |attempts|) && (st.Completed? ==> |done| == |order|)
    requires st.Interrupted? <==> |done| > 0 && done[|done| - 1].outcome.Interrupts()
    requires StopsAtInterrupt(done)
    requires s == LastSlot(slot, |attempts|, done)
    requires st.Aborted? ==> |done| < |order| && SetupFails(next, d, |attempts|, |done|, order[|done|])
    requires RoomForVisits(fs, d) ==> !st.Aborted? && RoomForVisits(next, d)
    ensures CrawlSoFar(d, cfg, tree, visit, shuffle, outcome, next, s, orders + [order], attempts + [done], st)
  {
    var list := Previous(ActiveList(cfg), orders, |attempts|);
    FinalSlotExtend(visit, attempts, done);
    ExtendVisits(attempts, orders, outcome, done, order);
    ExtendInterrupts(attempts, done, st.Interrupted?);
    assert |order| == |list| == |ActiveList(cfg)| by {
      assert multiset(list) == multiset(ActiveList(cfg));
      assert |multiset(list)| == |list| && |multiset(ActiveList(cfg))| == |ActiveList(cfg)|;
    }
    ExtendComplete(attempts, done, |ActiveList(cfg)|);
    if st.Aborted? {
      ExtendAborted(next, d, orders, attempts, order, done);
    }
  }

  /** A batch stopped by a failed set-up leaves the crawl aborted by that set-up. */
  lemma ExtendAborted(fs: Tree, d: Path, orders: seq<seq<string>>, attempts: seq<seq<Attempt>>,
                      order: seq<string>, done: seq<Attempt>)
    requires |orders| == |attempts|
    requires |done| < |order| && SetupFails(fs, d, |attempts|, |done|, order[|done|])
    ensures AbortedBy(fs, d, orders + [order], attempts + [done])
  {
    var ext: seq<seq<Attempt>> := attempts + [done];
    assert ext[|attempts|] == done && (orders + [order])[|attempts|] == order;
  }

  /**
    `crawl(num_batches)` (crawler.py:93-145): up to `num_batches` batches
    over the active list, stopped early by an interrupt or an OS error.
   */
  method Crawl(d: Path, cfg: Config, tree: Tree, visit: VisitSlot, numBatches: int,
               shuffle: Shuffler, outcome: (nat, nat) -> Outcome)
    returns (fs: Tree, slot: VisitSlot, orders: seq<seq<string>>, attempts: seq<seq<Attempt>>, status: Status)
    requires Permutes(shuffle)
    ensures |attempts| <= Max0(numBatches)
    ensures orders == BatchOrders(ActiveList(cfg), shuffle, |attempts|)
    ensures forall j :: 0 <= j < |attempts| ==> Visits(attempts[j], orders[j], outcome, j)
    ensures forall j :: 0 <= j < |attempts| - 1 ==> |attempts[j]| == |ActiveList(cfg)|
    ensures status.Completed? ==>
      |attempts| == Max0(numBatches) && forall j :: 0 <= j < |attempts| ==> |attempts[j]| == |ActiveList(cfg)|
    ensures CrawlLog(tree, fs, d, attempts)
    ensures status.Interrupted? <==> EndsInInterrupt(attempts)
    ensures InterruptsOnlyLast(attempts)
    ensures numBatches <= 0 ==> fs == tree && attempts == [] && status.Completed?
    ensures slot == FinalSlot(visit, attempts)
    ensures status.Aborted? ==> AbortedBy(fs, d, orders, attempts)
    ensures RoomForVisits(tree, d) ==> !status.Aborted?
  {
    fs, slot, orders, attempts, status := tree, visit, [], [], Completed;
    while |attempts| < numBatches && status.Completed?
      invariant |attempts| <= Max0(numBatches)
      invariant CrawlSoFar(d, cfg, tree, visit, shuffle, outcome, fs, slot, orders, attempts, status)
      invariant |attempts| == 0 ==> fs == tree
      invariant numBatches <= 0 ==> status.Completed?
      decreases numBatches - |attempts|, if status.Completed? then 1 else 0
    {
      fs, slot, orders, attempts, status := CrawlStep(d, cfg, tree, visit, shuffle, outcome, fs, slot, orders, attempts);
    }
  }

  /** Appending a batch after an uninterrupted crawl keeps interrupts at the very end. */
  lemma ExtendInterrupts(attempts: seq<seq<Attempt>>, done: seq<Attempt>, interrupted: bool)
    requires InterruptsOnlyLast(attempts) && !EndsInInterrupt(attempts)
    requires interrupted <==> |done| > 0 && done[|done| - 1].outcome.Interrupts()
    requires StopsAtInterrupt(done)
    ensures InterruptsOnlyLast(attempts + [done])
    ensures interrupted <==> EndsInInterrupt(attempts + [done])
  {
    var ext: seq<seq<Attempt>> := attempts + [done];
    forall j: int, k: int | 0 <= j < |ext| && 0 <= k < |ext[j]| && ext[j][k].outcome.Interrupts()
      ensures j == |ext| - 1 && k == |ext[j]| - 1
    {
      if j < |attempts| {
        assert false;
      }
    }
  }

  lemma ExtendVisits(attempts: seq<seq<Attempt>>, orders: seq<seq<string>>, outcome: (nat, nat) -> Outcome,
                     done: seq<Attempt>, order: seq<string>)
    requires |attempts| == |orders|
    requires forall j :: 0 <= j < |attempts| ==> Visits(attempts[j], orders[j], outcome, j)
    requires Visits(done, order, outcome, |attempts|)
    ensures forall j :: 0 <= j < |attempts| + 1 ==> Visits((attempts + [done])[j], (orders + [order])[j], outcome, j)
  {
    forall j | 0 <= j < |attempts| + 1
      ensures Visits((attempts + [done])[j], (orders + [order])[j], outcome, j)
    {
      if j < |attempts| {
        assert (attempts + [done])[j] == attempts[j] && (orders + [order])[j] == orders[j];
      } else {
        assert (attempts + [done])[j] == done && (orders + [order])[j] == order;
      }
    }
  }

  lemma ExtendComplete(attempts: seq<seq<Attempt>>, done: seq<Attempt>, n: nat)
    requires forall j :: 0 <= j < |attempts| ==> |attempts[j]| == n
    ensures forall j :: 0 <= j < |attempts| ==> |(attempts + [done])[j]| == n
  {
    forall j | 0 <= j < |attempts|
      ensures |(attempts + [done])[j]| == n
    {
      assert (attempts + [done])[j] == attempts[j];
    }
  }

  // ---------------------------------------------------------------------
  // Setting up the crawl directory.

  /** A step of `create_dir` that succeeded grows on top of an earlier one towards a longer path. */
  lemma GrowsTransitive(t: Tree, t1: Tree, t2: Tree, p: Path, q: Path)
    requires GrowsTowards(t, t1, p) && GrowsTowards(t1, t2, q) && IsPrefix(p, q)
    ensures GrowsTowards(t, t2, q)
  {
    forall x | x in t2 && x !in t ensures IsPrefix(x, q) && t2[x] == Dir {
      if x in t1 {
        assert IsPrefix(x, p);
        assert q[..|p|][..|x|] == q[..|x|];
      }
    }
  }

  /** Growing a tree by directories changes no regular file, so nothing becomes blocked or unblocked. */
  lemma GrowthKeepsBlocked(t: Tree, t': Tree, p: Path, q: Path)
    requires GrowsTowards(t, t', p)
    ensures BlockedByFile(t', q) <==> BlockedByFile(t, q)
  {
    if BlockedByFile(t', q) {
      var i :| 0 < i < |q| && q[..i] in t' && t'[q[..i]].File?;
      assert q[..i] in t;
    }
  }

  /** A path below a blocked one is blocked too. */
  lemma BlockedBelow(t: Tree, p: Path, q: Path)
    requires IsPrefix(p, q) && BlockedByFile(t, p)
    ensures BlockedByFile(t, q)
  {
    var i :| 0 < i < |p| && p[..i] in t && t[p[..i]].File?;
    assert q[..i] == p[..i];
  }

  /** In a well-formed tree an entry's ancestors exist, and none of them is a file. */
  lemma EntryAncestors(t: Tree, p: Path, q: Path)
    requires WellFormed(t) && p in t && IsPrefix(q, p) && |q| < |p|
    ensures Exists(t, q) && !BlockedByFile(t, p)
  {
    AncestorsOfDirAreDirs(t, Parent(p), |q|);
    assert Parent(p)[..|q|] == q;
    MadeDirNotBlocked(t, p);
  }

  /**
    `create_crawl_dir(output)` (crawler.py:48-59): `create_dir(output)` if
    it does not exist, then `output/crawl` and `output/crawl/logs`. An empty
    `output` names no path: `os.makedirs('')` raises `FileNotFoundError`.
   */
  function CreateCrawlDir(t: Tree, output: Path): (r: Result<(Tree, Path, Path)>)
    ensures r.Ok? ==> r.value.1 == output + ["crawl"] && r.value.2 == output + ["crawl", "logs"]
    ensures r.Ok? ==> Exists(r.value.0, r.value.2) && GrowsTowards(t, r.value.0, r.value.2)
    ensures r.Ok? && !Exists(t, output + ["crawl", "logs"]) ==> IsDir(r.value.0, r.value.2)
    ensures |output| == 0 ==> r == Err(FileNotFound(output))
  {
    var crawl, logs := output + ["crawl"], output + ["crawl", "logs"];
    assert IsPrefix(output, crawl) && IsPrefix(crawl, logs) && IsPrefix(output, logs) by {
      assert crawl[..|output|] == output && logs[..|crawl|] == crawl && logs[..|output|] == output;
    }
    if |output| == 0 then Err(FileNotFound(output))
    else
      var first := if Exists(t, output) then Ok((t, output)) else CreateDir(t, output);
      match first
      case Err(e) => Err(e)
      case Ok(step1) =>
        match CreateDir(step1.0, crawl)
        case Err(e) => Err(e)
        case Ok(step2) =>
          match CreateDir(step2.0, logs)
          case Err(e) => Err(e)
          case Ok(step3) =>
            GrowsTransitive(t, step1.0, step2.0, output, crawl);
            GrowsTransitive(t, step2.0, step3.0, crawl, logs);
            Ok((step3.0, crawl, logs))
  }

  /**
    In a well-formed tree the crawl directory cannot be set up exactly when
    `output` is empty, or the logs directory is missing and some ancestor of
    it is a regular file.
   */
  lemma CrawlDirFailsIffBlocked(t: Tree, output: Path)
    requires WellFormed(t)
    ensures CreateCrawlDir(t, output).Err? <==>
      |output| == 0 || (!Exists(t, output + ["crawl", "logs"]) && BlockedByFile(t, output + ["crawl", "logs"]))
    ensures CreateCrawlDir(t, output).Ok? ==> WellFormed(CreateCrawlDir(t, output).value.0)
  {
    if |output| > 0 {
      var crawl, logs := output + ["crawl"], output + ["crawl", "logs"];
      assert IsPrefix(output, crawl) && IsPrefix(crawl, logs) && IsPrefix(output, logs) by {
        assert crawl[..|output|] == output && logs[..|crawl|] == crawl && logs[..|output|] == output;
      }
      CreateDirFailsIffBlocked(t, output);
      var first := CreateDir(t, output);
      if first.Err? {
        BlockedBelow(t, output, logs);
        if logs in t {
          EntryAncestors(t, logs, output);
        }
      } else {
        var t1 := first.value.0;
        CreateDirFailsIffBlocked(t1, crawl);
        GrowthKeepsBlocked(t, t1, output, crawl);
        GrowthKeepsBlocked(t, t1, output, logs);
        var second := CreateDir(t1, crawl);
        if second.Err? {
          BlockedBelow(t, crawl, logs);
          if logs in t {
            EntryAncestors(t, logs, crawl);
          }
        } else {
          var t2 := second.value.0;
          CreateDirFailsIffBlocked(t2, logs);
          GrowthKeepsBlocked(t1, t2, crawl, logs);
          var third := CreateDir(t2, logs);
          if third.Ok? {
            var t3 := third.value.0;
            GrowthKeepsBlocked(t2, t3, logs, logs);
            EntryAncestors(t3, logs, crawl);
          }
        }
      }
    }
  }

  /** Where `log_env_variables` writes the list of URLs to crawl. */
  function UrlListPath(crawl: Path): Path {
    crawl + ["urls-crawled.csv"]
  }

  /**
    The `urls-crawled.csv` dump of `log_env_variables` (crawler.py:85-91):
    the active list, one URL per line. It fails when the crawl directory is
    missing or a file, or when a directory sits at the file's path.
   */
  function WriteUrlList(t: Tree, crawl: Path, cfg: Config): (r: Result<Tree>)
    ensures r.Ok? <==> IsDir(t, crawl) && !(UrlListPath(crawl) in t && t[UrlListPath(crawl)].Dir?)
    ensures r.Ok? ==> UrlListPath(crawl) in r.value && r.value[UrlListPath(crawl)].File?
    ensures r.Ok? && (forall k :: 0 <= k < |ActiveList(cfg)| ==> NoLineBreak(ActiveList(cfg)[k])) ==>
      SplitLines(r.value[UrlListPath(crawl)].contents) == ActiveList(cfg)
    ensures r.Ok? ==> forall q :: q != UrlListPath(crawl) ==> Untouched(t, r.value, q)
    ensures r.Ok? && WellFormed(t) ==> WellFormed(r.value)
  {
    assert Parent(UrlListPath(crawl)) == crawl;
    var written := WriteFile(t, UrlListPath(crawl), UrlListText(ActiveList(cfg)));
    if written.Ok? && (forall k :: 0 <= k < |ActiveList(cfg)| ==> NoLineBreak(ActiveList(cfg)[k])) then
      UrlListRoundTrip(ActiveList(cfg));
      written
    else written
  }

  /**
    `init_crawl_dirs(output)` (crawler.py:44-46), as far as the crawl
    depends on it: create the crawl directories, then dump the URL list.
   */
  function InitCrawlDirs(t: Tree, output: Path, cfg: Config): (r: Result<(Tree, Path)>)
    ensures r.Ok? ==> r.value.1 == output + ["crawl"] && IsDir(r.value.0, r.value.1)
    ensures r.Ok? ==> UrlListPath(r.value.1) in r.value.0 && r.value.0[UrlListPath(r.value.1)].File?
    ensures r.Ok? && (forall k :: 0 <= k < |ActiveList(cfg)| ==> NoLineBreak(ActiveList(cfg)[k])) ==>
      SplitLines(r.value.0[UrlListPath(r.value.1)].contents) == ActiveList(cfg)
    ensures |output| == 0 ==> r.Err?
  {
    match CreateCrawlDir(t, output)
    case Err(e) => Err(e)
    case Ok(made) =>
      match WriteUrlList(made.0, made.1, cfg)
      case Err(e) => Err(e)
      case Ok(t') => Ok((t', made.1))
  }

  /** A well-formed tree has nothing below a missing path: no batch directory, visit directory or `label`. */
  lemma NothingBelowMissing(t: Tree, crawl: Path, b: nat, k: nat)
    requires WellFormed(t) && |crawl| > 0 && crawl !in t
    ensures BatchDir(crawl, b) !in t && UrlDir(crawl, b, k) !in t && LabelPath(crawl, b, k) !in t
  {
    VisitPathShape(crawl, b, k);
    assert Parent(BatchDir(crawl, b)) == crawl;
    assert BatchDir(crawl, b) !in t;
    assert Parent(UrlDir(crawl, b, k)) == BatchDir(crawl, b);
    assert UrlDir(crawl, b, k) !in t;
    assert Parent(LabelPath(crawl, b, k)) == UrlDir(crawl, b, k);
  }

  /** Growing a tree towards `crawl/logs` adds no batch directory, visit directory or `label` below `crawl`. */
  lemma GrowthAddsNoVisitPath(t: Tree, t': Tree, crawl: Path, b: nat, k: nat)
    requires GrowsTowards(t, t', crawl + ["logs"])
    requires BatchDir(crawl, b) !in t && UrlDir(crawl, b, k) !in t && LabelPath(crawl, b, k) !in t
    ensures BatchDir(crawl, b) !in t' && UrlDir(crawl, b, k) !in t' && LabelPath(crawl, b, k) !in t'
  {
    var logs := crawl + ["logs"];
    VisitPathShape(crawl, b, k);
    var name := "batch-" + NatToString(b);
    assert name[0] == 'b';
    assert BatchDir(crawl, b)[|crawl|] == name && logs[|crawl|] == "logs";
    assert !IsPrefix(BatchDir(crawl, b), logs);
    assert !IsPrefix(UrlDir(crawl, b, k), logs) && !IsPrefix(LabelPath(crawl, b, k), logs);
  }

  /** `urls-crawled.csv` is none of the visit paths. */
  lemma UrlListIsNoVisitPath(crawl: Path, b: nat, k: nat)
    ensures UrlListPath(crawl) != BatchDir(crawl, b)
    ensures UrlListPath(crawl) != UrlDir(crawl, b, k) && UrlListPath(crawl) != LabelPath(crawl, b, k)
  {
    VisitPathShape(crawl, b, k);
    var name := "batch-" + NatToString(b);
    assert name[0] == 'b';
    assert BatchDir(crawl, b)[|crawl|] == name && UrlListPath(crawl)[|crawl|] == "urls-crawled.csv";
  }

  /**
    A crawl directory that set-up created afresh, in a well-formed tree,
    holds only `logs` and `urls-crawled.csv`: there is room for every visit.
   */
  lemma FreshCrawlDirHasRoom(t: Tree, output: Path, cfg: Config)
    ensures WellFormed(t) && !Exists(t, output + ["crawl"]) && InitCrawlDirs(t, output, cfg).Ok? ==>
      RoomForVisits(InitCrawlDirs(t, output, cfg).value.0, output + ["crawl"])
  {
    if WellFormed(t) && !Exists(t, output + ["crawl"]) && InitCrawlDirs(t, output, cfg).Ok? {
      var crawl := output + ["crawl"];
      assert output + ["crawl", "logs"] == crawl + ["logs"];
      CrawlDirFailsIffBlocked(t, output);
      var t3 := CreateCrawlDir(t, output).value.0;
      var t4 := WriteUrlList(t3, crawl, cfg).value;
      assert InitCrawlDirs(t, output, cfg).value.0 == t4;
      forall b: nat, k: nat
        ensures BatchDir(crawl, b) !in t4 && UrlDir(crawl, b, k) !in t4 && LabelPath(crawl, b, k) !in t4
      {
        NothingBelowMissing(t, crawl, b, k);
        GrowthAddsNoVisitPath(t, t3, crawl, b, k);
        UrlListIsNoVisitPath(crawl, b, k);
        assert Untouched(t3, t4, BatchDir(crawl, b)) && Untouched(t3, t4, UrlDir(crawl, b, k));
        assert Untouched(t3, t4, LabelPath(crawl, b, k));
      }
      assert forall b: nat :: BatchDir(crawl, b) !in t4 by {
        forall b: nat ensures BatchDir(crawl, b) !in t4 {
          assert UrlDir(crawl, b, 0) !in t4;
        }
      }
    }
  }

  // ---------------------------------------------------------------------
  // Stopping the crawl.

  /** What `stop_crawl` does: clean up the visit it holds, nothing, or raise `AttributeError`. */
  datatype Stop = CleanedUp(url: string, batch: nat, site: nat) | NothingToClean | MissingAttribute

  /**
    `stop_crawl()` (crawler.py:146-150): `if self.visit:` reads the
    attribute, which raises `AttributeError` when it was never assigned.
   */
  function StopCrawl(slot: VisitSlot): (s: Stop)
    ensures s.MissingAttribute? <==> slot.Unassigned?
    ensures s.NothingToClean? <==> slot.NoVisit?
    ensures s.CleanedUp? ==> slot == Live(s.url, s.batch, s.site)
  {
    match slot
    case Unassigned => MissingAttribute
    case NoVisit => NothingToClean
    case Live(url, b, k) => CleanedUp(url, b, k)
  }

  /** The number of URL attempts over all batches. */
  function AttemptCount(attempts: seq<seq<Attempt>>): nat {
    if |attempts| == 0 then 0 else AttemptCount(attempts[..|attempts| - 1]) + |attempts[|attempts| - 1]|
  }

  /**
    The `visit` attribute after a crawl is the initial one when no URL was
    attempted, and assigned after any attempt.
   */
  lemma {:induction false} FinalSlotAssigned(initial: VisitSlot, attempts: seq<seq<Attempt>>)
    ensures AttemptCount(attempts) == 0 ==> FinalSlot(initial, attempts) == initial
    ensures AttemptCount(attempts) > 0 ==> FinalSlot(initial, attempts) != Unassigned
    decreases |attempts|
  {
    if |attempts| > 0 {
      FinalSlotAssigned(initial, attempts[..|attempts| - 1]);
    }
  }

  /** Batch `j` is the last one that attempted any URL. */
  predicate LastNonEmpty(attempts: seq<seq<Attempt>>, j: int) {
    0 <= j < |attempts| && |attempts[j]| > 0 && forall i :: j < i < |attempts| ==> |attempts[i]| == 0
  }

  /** What cleaning up after the last attempt of batch `j` means: nothing if its `Visit` constructor raised. */
  function CleanupOfLast(attempts: seq<seq<Attempt>>, j: int): Stop
    requires LastNonEmpty(attempts, j)
  {
    var k := |attempts[j]| - 1;
    var a := attempts[j][k];
    if a.outcome.ConstructorRaises? then NothingToClean else CleanedUp(a.url, j, k)
  }

  /**
    After any attempt, `stop_crawl` acts on the crawl's very last attempt:
    it does nothing when that attempt's `Visit` constructor raised, and
    otherwise cleans up that visit, at its batch and position.
   */
  lemma {:induction false} StopCrawlActsOnLastAttempt(initial: VisitSlot, attempts: seq<seq<Attempt>>)
    requires AttemptCount(attempts) > 0
    ensures exists j :: LastNonEmpty(attempts, j) && StopCrawl(FinalSlot(initial, attempts)) == CleanupOfLast(attempts, j)
    decreases |attempts|
  {
    var b := |attempts| - 1;
    if |attempts[b]| > 0 {
      assert LastNonEmpty(attempts, b) && StopCrawl(FinalSlot(initial, attempts)) == CleanupOfLast(attempts, b);
    } else {
      var prefix := attempts[..b];
      StopCrawlActsOnLastAttempt(initial, prefix);
      var j :| LastNonEmpty(prefix, j) && StopCrawl(FinalSlot(initial, prefix)) == CleanupOfLast(prefix, j);
      EmptyLastBatch(initial, attempts, j);
    }
  }

  /** An empty last batch changes neither the last non-empty batch nor the final `visit`. */
  lemma EmptyLastBatch(initial: VisitSlot, attempts: seq<seq<Attempt>>, j: int)
    requires |attempts| > 0 && |attempts[|attempts| - 1]| == 0
    requires LastNonEmpty(attempts[..|attempts| - 1], j)
    ensures LastNonEmpty(attempts, j)
    ensures CleanupOfLast(attempts, j) == CleanupOfLast(attempts[..|attempts| - 1], j)
    ensures FinalSlot(initial, attempts) == FinalSlot(initial, attempts[..|attempts| - 1])
  {
    var prefix := attempts[..|attempts| - 1];
    assert prefix[j] == attempts[j];
    assert forall i :: j < i < |prefix| ==> attempts[i] == prefix[i];
  }

  /** The crawl adds nothing at the crawl directory's own level, so the URL list survives it. */
  lemma UrlListSurvives(tree: Tree, fs: Tree, d: Path, attempts: seq<seq<Attempt>>)
    requires CrawlLog(tree, fs, d, attempts) && UrlListPath(d) in tree
    ensures UrlListPath(d) in fs && fs[UrlListPath(d)] == tree[UrlListPath(d)]
  {
    var p := UrlListPath(d);
    assert forall j :: !InsideBatch(d, j, p);
  }

  /** Batches that attempted nothing add up to no attempts. */
  lemma {:induction false} EmptyBatchesCountZero(attempts: seq<seq<Attempt>>)
    requires forall j :: 0 <= j < |attempts| ==> |attempts[j]| == 0
    ensures AttemptCount(attempts) == 0
    decreases |attempts|
  {
    if |attempts| > 0 {
      EmptyBatchesCountZero(attempts[..|attempts| - 1]);
    }
  }

  /** Over an empty active list every batch's order is empty, so no URL is ever attempted. */
  lemma EmptyListNoAttempts(list: seq<string>, shuffle: Shuffler, outcome: (nat, nat) -> Outcome,
                            orders: seq<seq<string>>, attempts: seq<seq<Attempt>>)
    requires Permutes(shuffle) && |list| == 0 && orders == BatchOrders(list, shuffle, |attempts|)
    requires forall j :: 0 <= j < |attempts| ==> Visits(attempts[j], orders[j], outcome, j)
    ensures AttemptCount(attempts) == 0
  {
    forall j | 0 <= j < |attempts| ensures |attempts[j]| == 0 {
      assert multiset(orders[j]) == multiset{};
      assert |orders[j]| == |multiset(orders[j])|;
    }
    EmptyBatchesCountZero(attempts);
  }
}
