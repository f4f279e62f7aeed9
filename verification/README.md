# Traffic-trace crawler: a Dafny model

This project models the core of a website-fingerprinting data collector.
The crawler visits a list of URLs through an anonymity browser in several
batches, reshuffling the list each batch. For each visit it records a
`label` and, when the page loaded, a `time` file, one directory per visit.
The command-line driver prepares the URL lists first:
- it reads the lists line by line;
- it removes closed-world URLs from the open-world list;
- in open-world mode, it gives this host its share of the open-world list by rank.

The modules follow the program:

- `Crawler` covers models/crawler.py:
  - the crawl directory set-up and the `urls-crawled.csv` dump;
  - the batch loop and the per-visit handlers, over an abstract file tree;
  - `stop_crawl`.
- `Collector` covers the driver in data_collector.py, from the lists it has read to `stop_crawl` in `finally`.
- `Shard` covers the open-world index range of this host.
- `Dedup` covers removing the closed-world URLs.
- `UrlName` covers `get_filename_from_url`.
- `Settings` covers the timeout constants of helper/utils.py.
- `FileTree` covers the file system:
  - paths are sequences of components, and the tree is a map from path to `Dir` or `File(contents)`;
  - `create_dir`, `os.makedirs` and opening a file for writing are functions over it, and each returns an OS error where the OS would raise one.
- Supporting modules:
  - `PyList`: Python slicing, `index` and `remove`.
  - `Lines`: `str.splitlines`.
  - `Decimal`: `str(n)`.
  - `Shuffle`: `random.shuffle` as Fisher–Yates over given random draws.

Parameters and oracles stand in for what the model cannot see:
- A visit is the oracle `outcome(batch, site)`:
  - the `Visit` constructor raises;
  - `get()` raises a `TimeoutException`, another `Exception` or a `KeyboardInterrupt`;
  - or `get()` returns, with its start and end clock readings.
- `random.shuffle` is a `Shuffler` parameter, required only to permute. `Crawler.FisherYates` is Python's algorithm, and `Crawler.FisherYatesPermutes` shows it qualifies.
- The initial tree, the URL texts, the server list and this host's address are also parameters.

The `shuffle(batch, list)` results form the batch orders. Each order shuffles the previous one, because the same list object is shuffled in place every batch. In closed-world mode that object is the crawler's `urls_closeworld`, so after the crawl that attribute holds the last order.

## Model

| member | source | states |
|---|---|---|
| Crawler.ActiveList | models/crawler.py:95-96 | The crawled list is `urls_closeworld` in closed-world mode. In open-world mode with `0 <= start <= end` it is the open-world list clamped to `[start, end)`, and it is empty when `0 <= end <= start`. |
| PyList.Slice | models/crawler.py:95-96 | A Python slice `s[i:j]`: negative bounds count from the end and bounds are clamped. It has the stated length, and its `k`-th element is `s[lo + k]`. |
| Crawler.WriteUrlList | models/crawler.py:85-91 | In the modelled tree, writing `urls-crawled.csv` succeeds exactly when the crawl directory is a directory and no directory sits at the file's path, and success keeps the tree well formed. Read back with `splitlines()`, the file gives the active list whenever no URL holds a line break. No other path changes. |
| Lines.UrlListRoundTrip | models/crawler.py:86-91 | Writing each URL followed by `"\n"` and splitting the text back into lines gives the same list. |
| Lines.SplitLinesRebuilds | data_collector.py:55-63 | The lines `splitlines()` returns, each followed by its own terminator (`"\n"`, `"\r\n"` or another single line break, and nothing after the last line only), concatenate back to the text. No line holds a break, and a `"\r\n"` is never split into a `"\r"` and an empty line. |
| Lines.SplitLinesRoundTrip | data_collector.py:55-63 | A text whose only line breaks are `"\n"` and that is empty or ends in one is exactly its lines, each followed by `"\n"`: the inverse of `Lines.UrlListRoundTrip`. |
| Crawler.CreateCrawlDir | models/crawler.py:48-59 | On success it returns `output/crawl` and `output/crawl/logs`; the logs path exists, it is a directory when it did not exist before, and the only entries added are directories on the way to it. An empty `output` fails with `FileNotFoundError`. |
| Crawler.CrawlDirFailsIffBlocked | models/crawler.py:48-59 | In a well-formed modelled tree, set-up fails exactly when `output` is empty, or when `logs` is missing and some ancestor of it is a regular file. A successful set-up leaves the tree well formed. |
| Crawler.InitCrawlDirs | models/crawler.py:43-46 | After set-up and the dump, `output/crawl` is a directory holding `urls-crawled.csv`. The file reads back as the active list when no URL holds a line break. An empty `output` is an error. |
| Crawler.VisitOne | models/crawler.py:113-141 | One visit creates `url-<k>` and writes `label` (URL plus newline) before the visit starts. It returns an OS error exactly when one of those two steps raises on the tree it starts from, and the failing step still fails on the tree it leaves. `time` is written only after `get()` returned, unless a directory is in the way. `cleanup_visit` runs exactly for a constructed visit that raised a timeout or another exception, a failed `time` write included, and never on an interrupt. Only the visit's own paths change, and room for later visits is kept. |
| Crawler.SetupFailsIff | models/crawler.py:113-117 | In a well-formed modelled tree, a visit's set-up raises exactly when `url-<k>` is missing below a regular file, `url-<k>` is a regular file, or a directory sits where `label` goes. |
| Crawler.BatchDirUnderRoom | models/crawler.py:105-106 | With room for visits (the crawl directory is a directory, no `batch-<b>` or `url-<k>` is a file, no `label` is a directory), `create_dir` of any batch succeeds and keeps the room. |
| Crawler.SetupUnderRoom | models/crawler.py:113-117 | With room for visits and `batch-<b>` present, creating `url-<k>` and writing its `label` both succeed and keep the room. |
| Crawler.FreshCrawlDirHasRoom | models/crawler.py:43-59 | A crawl directory that set-up created afresh in a well-formed tree leaves room for every visit. |
| Crawler.CrawlBatch | models/crawler.py:104-144 | The attempts follow the batch order, one per URL, numbered consecutively with the oracle's outcomes. Every attempt left its label and, when it wrote one, its time file. The batch stops early only on an interrupt (its last attempt) or an OS error, and an OS error means the set-up of the next URL in the order raises. With room for visits and `batch-<b>` present it never aborts. The `visit` attribute ends as the last attempt left it. |
| Crawler.RunBatch | models/crawler.py:101-110 | One iteration creates `batch-<b>` and shuffles the list. The batch directory is made exactly when `create_dir` succeeds; if it raised, the run aborts with that error and nothing changed. Otherwise the batch is visited in the new order and the crawl log is extended by the batch's attempts; an abort then names a URL whose set-up raises. With room for visits the iteration never aborts and keeps the room. |
| Crawler.BatchOrders | models/crawler.py:109-110 | There is one order per batch, and every order is a permutation of the active list. |
| Shuffle.Shuffle | models/crawler.py:109 | `random.shuffle` keeps the length and the multiset of the list. |
| Crawler.FisherYatesPermutes | models/crawler.py:109 | Python's Fisher–Yates shuffle, with any random draws, is a permuting shuffler. |
| Crawler.Crawl | models/crawler.py:93-144 | The result of `crawl(num_batches)`:<br>• at most `max(num_batches, 0)` batches;<br>• batch `j` attempts its order's URLs in sequence with the oracle's outcomes;<br>• every batch before the last is complete;<br>• a normal end means all batches complete;<br>• every attempt is handled and recorded as in `VisitOne`;<br>• `time` files not written by the crawl are untouched, and changes stay inside `batch-0 .. batch-(n-1)`, which all exist;<br>• an interrupt is always the last attempt of the crawl, and the run counts as interrupted exactly then;<br>• `num_batches <= 0` changes nothing;<br>• an OS error means `create_dir` of the next batch raises, or the set-up of the next URL of the last batch does;<br>• with room for visits under the crawl directory the crawl never aborts;<br>• the final `visit` attribute is that of the last attempt. |
| Crawler.VisitFilesDistinct | models/crawler.py:105-116 | Different (batch, site) pairs give different `label` and `time` paths, and a `label` path is never a `time` path. |
| Crawler.UrlDirInjective | models/crawler.py:105-114 | `batch-<b>/url-<k>` determines both `b` and `k`. |
| Decimal.ParseFormatted | models/crawler.py:106 | `str(n)` reads back as `n`. |
| Decimal.NumberedNameInjective | models/crawler.py:105-114 | `prefix + str(a) == prefix + str(b)` only when `a == b`. |
| Crawler.UrlListSurvives | models/crawler.py:101-144 | The crawl leaves `urls-crawled.csv` as it was. |
| Crawler.StopCrawlActsOnLastAttempt | models/crawler.py:119-150 | `Crawler.StopCrawl` models `stop_crawl`. Once any URL was attempted, it acts on the last attempt of the last batch that attempted one: it does nothing when that attempt's `Visit` constructor raised, and otherwise cleans up that visit. |
| Crawler.FinalSlotAssigned | models/crawler.py:119-123 | After the crawl, `visit` is its initial value when no URL was attempted, and it is assigned after any attempt. |
| Crawler.EmptyListNoAttempts | models/crawler.py:109-110 | With an empty active list no URL is ever attempted. |
| Collector.Configure | data_collector.py:58-87 | The crawler's configuration keeps the mode, the closed-world list and the shard bounds. The open-world list is the input minus the closed-world URLs, as multisets, or empty in closed-world mode. In open-world mode the crawled list is the deduplicated open-world list sliced to the shard. |
| Collector.ActiveListLineFree | data_collector.py:55-63 | When both lists come from `splitlines()`, the active list holds no line break, whatever the range. |
| Collector.CrawlAndStop | data_collector.py:93-103 | `crawl` followed by `stop_crawl` in `finally`:<br>• the URL list and crawl directory survive;<br>• the batch count is bounded, and exact on a normal end;<br>• batch `j` visits, in order, the URLs of the `j`-th shuffle of the active list, with the oracle's outcomes;<br>• every batch before the last, and on a normal end every batch, attempts the whole list;<br>• every attempt is recorded in the tree as in `Crawler.Crawl`;<br>• the run is interrupted exactly when its last attempt was;<br>• with room for visits the run never aborts;<br>• `stop_crawl` acts on the last attempt's visit, and never raises if `visit` started assigned. |
| Collector.RunCollection | data_collector.py:52-103 | The run ends as "not listed" exactly when open-world mode is on and the host is missing from the server list. Otherwise it fails exactly when crawler set-up fails. A run that is not "not listed" configures the crawler from the `splitlines()` lists, deduplicated and sliced to this host's shard as in `Collector.Configure`. A finished run has:<br>• the closed-world list from `splitlines()`;<br>• `urls-crawled.csv` reading back as the active list;<br>• the crawl bounds, batch orders, per-batch visits, complete batches and recorded attempts of `Collector.CrawlAndStop`;<br>• no attempts when there are no batches or no URLs;<br>• no OS error during the crawl when the crawl directory did not exist before, in a well-formed tree;<br>• `stop_crawl` applied to the final `visit` attribute. |
| Collector.RunCollectionAsWritten | models/crawler.py:27 | With `visit` only annotated, a finished run in which no URL was attempted, for instance one with `num_batches <= 0`, ends in `AttributeError` from `stop_crawl`. |
| Collector.ZeroBatchesRaise | data_collector.py:93-103 | A concrete run: closed world, one URL, zero batches, an empty tree, output `output`. It finishes normally and then `stop_crawl` raises. |
| Collector.RunCollectionCorrected | models/crawler.py:119 | With `visit` set to `None` at construction, `stop_crawl` never raises, and it does nothing when no URL was attempted. |
| FileTree.CreateDir | helper/utils.py:80-84 | `create_dir(p)` returns `p`. Afterwards `p` exists. An existing path is left alone, and otherwise only directories on the way to `p` are added. |
| FileTree.CreateDirFailsIffBlocked | helper/utils.py:80-84 | In a well-formed modelled tree, `create_dir` fails exactly when `p` is missing and one of its ancestors is a regular file, and success keeps the tree well formed. |
| FileTree.CreateDirIdempotent | helper/utils.py:80-84 | A second `create_dir` of the same path changes nothing. |
| FileTree.MakeDirsFailsIffBlocked | helper/utils.py:82-83 | In a well-formed modelled tree, `os.makedirs` of a missing path fails exactly when an ancestor is a regular file. |
| FileTree.WriteFile | models/crawler.py:116-117 | In the modelled tree, opening a file for writing succeeds exactly when the parent is a directory and the path is not a directory. The file then holds the written text and every other path is unchanged. |
| UrlName.FilenameFromUrl | helper/utils.py:103-109 | The result is `prefix + "-" + name`, where `name`:<br>• uses only `[A-Za-z0-9._-]`;<br>• has no two adjacent dashes;<br>• keeps the stripped URL's `[A-Za-z0-9._]` characters in order;<br>• is the stripped URL with every other character turned into `-` and every run of dashes collapsed to one;<br>• is a fixed point of sanitising;<br>• is empty only for an empty stripped URL. |
| UrlName.SanitiseIdempotent | helper/utils.py:108-109 | Sanitising twice equals sanitising once. |
| UrlName.DashOthers | helper/utils.py:108 | Every character outside `[A-Za-z0-9._-]` becomes `-` in place and every other character is kept. |
| UrlName.CollapseDashes | helper/utils.py:109 | Collapsing leaves no double dash, keeps the first character and the kept characters, and changes nothing in a string without double dashes. |
| UrlName.CollapseDropsOneDash | helper/utils.py:109 | Dropping one dash of a `--` pair does not change the collapsed result. With the fixed-point property, every run of dashes becomes exactly one dash. |
| UrlName.RemovalJoinsPieces | helper/utils.py:105-107 | `replace(pat, "")` concatenates the `split(pat)` pieces, none of which contains `pat`, so every occurrence is removed. |
| UrlName.SplitJoinRoundTrip | helper/utils.py:105-107 | Joining the `split` pieces with the separator gives the string back. |
| Settings.HardTimeoutFollowsSoft | helper/utils.py:33-34 | The hard timeout is the soft timeout plus 10 seconds, so it is strictly later. |
| Settings.OrdinaryWaitBelowSoftTimeout | helper/utils.py:29-30 | The ordinary visit wait (120 s) is below the soft timeout (200 s), as the comment requires. |
| Settings.OnionWaitBreaksTheComment | helper/utils.py:29-33 | The onion visit wait (240 s) exceeds the soft timeout, so the comment's "BOTH < SOFT_VISIT_TIMEOUT" does not hold. |
| Shard.OpenWorldRange | data_collector.py:78-84 | Closed-world mode gives `(0, 0)`. Open-world mode fails exactly when the host is not listed. Otherwise the rank is the first index of the host's address, and the range is `[int(N*r/S), int(N*(r+1)/S))`, inside `[0, N]` when `N >= 0`. |
| Shard.TruncDiv | data_collector.py:79-81 | `int()` of an exact quotient truncates toward zero. |
| Shard.ShardBounds | data_collector.py:79-81 | For `0 <= r < S` and `N >= 0`: `0 <= start <= end <= N`. |
| Shard.StartAtZeroAndAtEnd | data_collector.py:79-81 | Rank 0 starts at 0, and the rank past the last starts at `N`. |
| Shard.ShardsDisjoint | data_collector.py:79-81 | A lower rank's range ends no later than a higher rank's starts, in exact arithmetic. |
| Shard.ShardsTile | data_collector.py:79-81 | An index lies in some rank's range exactly when `0 <= i < N`, and then in exactly one, in exact arithmetic. |
| Shard.ShardListsPartition | data_collector.py:79-81 | The slices of all ranks, in rank order, concatenate to the first `N` URLs, in exact arithmetic. |
| Shard.FourServerExample | data_collector.py:79-81 | `N = 10000`, `S = 4` gives `[0,2500)`, `[2500,5000)`, `[5000,7500)`, `[7500,10000)`. |
| PyList.IndexOf | data_collector.py:79 | `list.index` finds the first equal element, and is absent exactly when the element is. |
| PyList.Remove | data_collector.py:65 | `list.remove` drops the first equal element, one copy. |
| Dedup.RemoveIfPresent | data_collector.py:65 | Removing one closed-world URL takes exactly one copy of it out of the multiset, keeps the order of the rest, and the copy removed is the first one; an absent URL changes nothing. |
| Dedup.RemoveClosedWorld | data_collector.py:64-65 | The result is the open-world multiset minus the closed-world multiset. |
| Dedup.RemovalKeepsOrder | data_collector.py:64-65 | The result is a subsequence of the open-world list. |
| Dedup.DistinctListsBecomeDisjoint | data_collector.py:64-65 | Without duplicates in the open-world list, a URL survives exactly when it was open-world and not closed-world. |
| Dedup.DuplicateSurvives | data_collector.py:64-65 | With a duplicate, one closed-world entry removes only one copy. |

## Left out

- Visits, `TorController`, the browser driver and the packet capture are left out. A visit appears only as the outcome oracle, and `cleanup_visit` only as the `cleanedUp` flag of an attempt.
- A `KeyboardInterrupt` is modelled only while a visit runs. One arriving during `create_dir`, a file write or `time.sleep` is not modelled.
- `time.sleep`, `print` and the log output have no effect on the model.
- The clock readings are natural numbers written with `str`. The source writes floats, and their formatting is not modelled.
- `log_env_variables` writes `ip`, `timestamp`, `settings` and copies of the torrc files and `utils.py` before `urls-crawled.csv`. These writes, and their failures, are not modelled.
- Collector.RunCollection: on a failed set-up the directories already made are not returned; the model reports the error with the initial tree.
- The Python truthiness of a `Visit` object is taken to be true. The `Visit` class is not part of this model.
- `cleanup_visit` is assumed not to raise.
- Argument parsing, the file-existence asserts and reading the files are out of scope; the model starts from the file texts. Reading this host's address takes the first line of a file, which raises on an empty file; that is not modelled either.
- Shard.TruncDiv: the source computes the start as `int(N * (r / S))` and the end as `int(N * (r + 1) / S)`, two different floating-point expressions; the model uses exact rational arithmetic for both. In IEEE-754 doubles a start can fall one below the previous rank's end: for `N = S = 100`, rank 29 starts at `int(100 * 0.29) = int(28.999999999999996) = 28` while rank 28 ends at `int(2900 / 100) = 29`, so index 28 belongs to two hosts.
- Shard.ShardsDisjoint, Shard.ShardsTile and Shard.ShardListsPartition hold for the exact arithmetic only; because of the rounding above, real shards can overlap by one URL.
- The file tree is abstract. It has no permissions, full disks, name-length limits or read-only file systems, so every "fails exactly when" statement holds for this tree only, and a real OS can raise in more cases.
- FileTree.WriteFile: a missing parent below a regular file yields `FileNotFound`, where `open` raises `NotADirectoryError`. Only whether the write fails is used elsewhere, not the error's kind.
- FileTree.CreateDir: the empty path is the working directory and `CreateDir(t, [])` succeeds, while `os.makedirs('')` raises `FileNotFoundError`. No caller in the model creates the empty path; an empty `output` is rejected before any `create_dir`.
- Paths are sequences of components. An empty component list stands for the working directory. `os.path.join` edge cases such as absolute components are not modelled.
- The crawl directory's name is not timestamped, despite the comments, so a second run reuses it. `time` files left by an earlier run are therefore only claimed untouched, not absent.
- The signal, process, virtual-display, clock and copy helpers of helper/utils.py are not modelled. The ports and display constants are not either.
- The two comment constraints naming `INTERVAL_DUMP` and `INTERVAL_WAIT_FOR_RESTART` refer to constants that helper/utils.py does not define, so they are not stated.

## Findings

| source | as written | input that shows it | evidently intended | confidence | as-written member | corrected member |
|---|---|---|---|---|---|---|
| models/crawler.py:27 | `self.visit: Visit` only annotates the attribute, so it does not exist until the first visit sets it to `None`. `stop_crawl` in data_collector.py's `finally` then reads `self.visit` and raises `AttributeError`. | `--batch 0`, an empty URL list, or an OS error before the first `label` (for example `batch-0` blocked by a file). Concretely: closed world, one URL, zero batches, empty tree, output `output` (`Collector.ZeroBatchesRaise`). | `self.visit = None` in `__init__`, so `stop_crawl` is a no-op before any visit. | high, not executed | Collector.RunCollectionAsWritten | Collector.RunCollectionCorrected |
