# OpenArt workflow scraper — decision logic in Dafny

This project models the control logic of `OpenArtScraper` (`scraper.py`), a
scraper that collects workflow page URLs from an infinite-scroll gallery,
visits each page to download its workflow JSON, renames the file and finally
merges all saved files into one document. The browser, the clock, the file
system and the JSON decoder are not modelled; their answers reach the model as
parameters:

- a scroll **round** (`Collector.Round`): the hrefs read from the anchors in
  one pass (`None` for a missing attribute or a stale element) and the page
  height measured after scrolling;
- a page **visit** (`Download.Page`): either `Aborted` (page-load timeout or
  any other exception) or `Loaded`, with which selectors find an element, the
  directory listing taken before the click, the listing read at each poll and
  the clock value used for a colliding name;
- the **final directory listing** and a **parse** function
  (`string -> Option<P>`) for the merge.

Modules:

- `Wrappers`: `Option`, `Distinct`, an order-preserving `Filter` and its lemmas.
- `Text`: Python's `in`, `startswith`, `endswith` on strings and the decimal
  rendering `f"{n}"`, with its round trip.
- `Naming`: `workflow_<index>.json`, the timestamped fallback name, the rename
  choice and the glob `workflow_*.json`.
- `Collector`: the URL filter and the collection loop as a fold over rounds
  (`CollectFrom`), with lemmas on what is collected and when it stops.
- `Download`: selector fallback, the completed-file rule, the bounded poll,
  one visit's outcome, and the success/failure tally over a run.
- `Merge`: the merge as a fold over the globbed files, with its lemmas.
- `Scraper`: the class `OpenArtScraper` with the fields the source mutates
  (`workflowUrls`, `downloadedCount`, `failedDownloads`) and its loops.

The timestamped fallback name is not re-checked, so a rename is not
guaranteed to be collision-free: `Naming.StampedTargetMayExist` shows a folder
in which the chosen name already exists.

## Model

| member | source | states |
|---|---|---|
| `Collector.AddHrefsAddsAccepted` | scraper.py:98-104 | scanning one round's anchors adds exactly the hrefs that are present, non-empty, contain `/workflows/`, differ from the base URL and do not end in `/workflows/all`, whatever their order or repetitions |
| `Collector.Scroll` | scraper.py:117-126 | after a scroll the last height is the height just measured; the no-new-content counter is 0 exactly when the height changed and otherwise grows by one |
| `Collector.ScrollAddsAccepted` | scraper.py:98-104 | one pass adds exactly the round's accepted hrefs to the URL set |
| `Collector.CollectStops` | scraper.py:85-126 | on exit the URL count has reached the target, or the counter equals 5 (five unchanged heights in a row), or the recorded rounds are used up; the counter never exceeds 5 |
| `Collector.CollectKeepsExactlyAccepted` | scraper.py:98-104 | the collection only grows; every URL it gains passes the filter and is an accepted href of some consumed round; every accepted href of every consumed round is collected |
| `Collector.CollectKeepsFlatTail` | scraper.py:117-126 | the counter always equals a run of rounds that all reported the current last height, so a stop on stagnation follows 5 scrolls that left the height unchanged |
| `Collector.FlatHeightsHalt` | scraper.py:117-123 | once heights stop changing, collection ends within the remaining allowance of scrolls even if the target is not met |
| `Collector.CollectMayOvershoot` | scraper.py:89-104 | the target is tested only at the loop head: with a target of 1, any round offering two different acceptable links yields both, 2 URLs |
| `Scraper.ListOf` | scraper.py:129 | `list(set)`: a sequence of the same elements, each exactly once |
| `Scraper.OpenArtScraper.constructor` | scraper.py:44-51 | a new scraper has no URLs, no downloads and no failures |
| `Scraper.OpenArtScraper.ScanAnchors` | scraper.py:98-106 | the anchor loop leaves the URL set equal to the fold `AddHrefs` of the hrefs and keeps every URL acceptable |
| `Scraper.OpenArtScraper.ScrollAndCollectUrls` | scraper.py:79-129 | the URL set becomes the result of `CollectFrom` from the old set and the initial height; all URLs stay acceptable; the returned list has each collected URL exactly once |
| `Download.FirstFromIsFirst` | scraper.py:154-160 | the first-match search returns the least index that matches, and returns none only when no index matches |
| `Download.FindDownloadButton` | scraper.py:143-160 | the control is the element of the first selector, in the fixed order, that finds one; no selector before it finds one; none is returned only when no selector finds an element |
| `Download.PartialDownloadsIgnored` | scraper.py:178-182 | with a finished file, a `.crdownload` file, a `.tmp` file and a file present before the click, only the finished new file counts as completed |
| `Download.PollForDownload` | scraper.py:174-199 | at most 30 polls; a file is returned exactly when some poll below 30 sees a completed file (new since the click and not partial), it comes from the first such poll, and otherwise all 30 polls are made |
| `Download.AttemptDownload` | scraper.py:131-212 | a visit ends in exactly one of page error, no control, poll timeout or saved; saved happens exactly when `Succeeds` holds, with a completed file of the first successful poll renamed to `RenameTarget` of that poll's listing |
| `Download.SucceedsIff` | scraper.py:154-199 | a loaded visit succeeds exactly when some selector finds an element and some poll within the bound sees a completed file |
| `Download.DownloadAccounting` | scraper.py:262-263 | over the numbered URLs, successes plus failures equal the number of URLs processed |
| `Download.FailuresFromUrls` | scraper.py:262-263 | the failure list holds only processed URLs and has no repeats when the URLs are distinct |
| `Scraper.OpenArtScraper.DownloadWorkflow` | scraper.py:131-212 | returns `True` and adds one to the download count, failures unchanged; or returns `False` and appends exactly this URL to the failures, count unchanged; which one is decided by `Succeeds`; on success the file's new name is `RenameTarget` of the given index (`workflow_<index>.json` unless taken) over the listing of the first successful poll, and it is `SavedName(index, page)` |
| `Download.SavedNamesNumbered` | scraper.py:186-191 | over the visits numbered 1 to n there is one saved name per success; each saved name is the name of some visit numbered 1 to n and matches `workflow_*.json` |
| `Download.SavedNamesComplete` | scraper.py:186-191 | every successful visit numbered 1 to n has its file's name among the saved names |
| `Download.SavedNamesDistinct` | scraper.py:186-191 | when every primary name is free, visit `k` saves `workflow_<k>.json` and no two saved files share a name |
| `Naming.PrimaryNameInjective` | scraper.py:187 | different indices give different `workflow_<index>.json` names |
| `Naming.StampedNeverPrimary` | scraper.py:186-191 | a timestamped name is never any download's primary name |
| `Naming.RenameTargetPrimaryIffFree` | scraper.py:186-191 | the primary name is chosen exactly when no file of that name exists |
| `Naming.RenameTargetMatchesGlob` | scraper.py:186-191 | every rename target matches `workflow_*.json` |
| `Naming.StampedTargetMayExist` | scraper.py:189-191 | the timestamped name is not re-checked: it can name a file that already exists |
| `Text.DecimalRoundTrip` | scraper.py:187 | reading the decimal rendering of the index back gives the index |
| `Merge.MergedFilenames` | scraper.py:223-230 | the merged entries' file names are exactly the files that parse, in file order |
| `Merge.MergedEntries` | scraper.py:223-232 | each entry pairs a listed file with its parsed payload; each listed file that parses has its entry |
| `Merge.MergedAppend` | scraper.py:218-232 | the merge is a left fold: entries of earlier files precede those of later ones |
| `Merge.MergedOneToOne` | scraper.py:219-232 | distinct files give entries with distinct file names: one entry per parsed file |
| `Merge.MergeSkipsCorrupt` | scraper.py:223-232 | a good `workflow_1.json` and a corrupt `workflow_2.json` give exactly one entry, for the good file |
| `Merge.RenamedFileIsGlobbed` | scraper.py:219 | a file renamed by the downloader that is still in the folder is among the merge's files |
| `Scraper.OpenArtScraper.MergeJsonFiles` | scraper.py:214-240 | the merged document is the fold `Merged` over the globbed files in listing order, and the returned count is its length |
| `Scraper.OpenArtScraper.DownloadAll` | scraper.py:262-263 | visiting `urls[k]` with index `k + 1`, the download count grows by `Successes` of the visits, the failure list by `Failures` (the URLs whose visit fails, in order) and the returned names are `SavedNames`: the name of visit `k + 1`'s file for each success, in order |
| `Scraper.OpenArtScraper.Run` | scraper.py:242-273 | the URL set is the collection result and the returned list holds each collected URL once; the count grows by `Successes` and the failures by `Failures` of the visits along that list, so downloads plus failures grow by exactly the number of collected URLs; old failures are kept as a prefix; new failures are distinct collected URLs; the returned names are `SavedNames` of those visits; the merged document is `Merged` of the final folder |

## Left out

- Browser and driver plumbing (`setup_driver`, navigation, `WebDriverWait`, `execute_script`, `find_element(s)`, `click`): external; their answers are the rounds and page visits given as parameters.
- Sleeps and real time: pauses have no effect on the decisions; the `int(time.time())` value is the visit's `timestamp`.
- File and JSON I/O: decoding is the `parse` parameter (a directory that matches the glob simply fails to parse); writing the merged file is not modelled, `Run` and `MergeJsonFiles` return the document instead; `os.rename` is not applied to any modelled folder, since the folder is only observed through listings.
- Logging, the every-50 progress line and the first-10 failure summary: output only.
- Process-level handling in `run` (`KeyboardInterrupt`, the generic `except`, `driver.quit()`): teardown of the external driver.
- Configuration other than `base_url` and `target_count` (`download_folder`, `merged_file`, `scroll_pause`, `page_load_timeout`, `headless`): used only by the plumbing above.
- Scraper.OpenArtScraper.ScrollAndCollectUrls: the source loop can run forever when the height keeps changing and the target is never met; the model also stops when the recorded rounds run out, so its exit condition has that third case.
- Collector.CollectStops: carries the same third case ("the recorded rounds are used up").
- Download.AttemptDownload: the rename's existence test is made against the listing of the poll that found the file rather than a fresh look at the folder, and every exception during a visit is one `Aborted` answer; since counters change only at the very end of a visit, partial progress before an exception has no effect on them.
- Scraper.OpenArtScraper.DownloadWorkflow: the index is a natural number; the only caller numbers URLs from 1. It also returns the file's new name, which the source only logs.
- Scraper.OpenArtScraper.Run: returns the collected list and the merged document, which the source keeps local to `run`, and the saved names, which it only logs; this exposes what the run did and changes no decision.
- Glob matching is case-sensitive, as on POSIX file systems; the case-insensitive matching of other platforms is not modelled.
