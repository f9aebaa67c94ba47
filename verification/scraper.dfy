/** The scraper object: the URL set it accumulates, the download counters it
    updates, and the run that sequences collection, downloads and the merge.
    Browser answers, directory listings, the clock and JSON decoding reach it
    as parameters (see the modules it imports). */
module Scraper {
  import opened Wrappers
  import opened Text
  import opened Naming
  import opened Collector
  import opened Download
  import opened Merge

  /** The settings the decision logic reads. */
  datatype Config = Config(baseUrl: string, targetCount: int)

  /** `list(s)`: every element of the set exactly once, in an unspecified order. */
  method ListOf(s: set<string>) returns (r: seq<string>)
    ensures |r| == |s| && Distinct(r)
    ensures forall x :: x in r <==> x in s
  {
    r := [];
    var rest := s;
    while rest != {}
      invariant rest <= s && |r| + |rest| == |s| && Distinct(r)
      invariant forall x :: x in r <==> x in s - rest
      decreases |rest|
    {
      var x :| x in rest;
      assert x !in r;
      r := r + [x];
      rest := rest - {x};
    }
  }

  class OpenArtScraper {
    const config: Config
    var workflowUrls: set<string>
    var downloadedCount: nat
    var failedDownloads: seq<string>

    /** Every collected URL passes the collector's filter. */
    ghost predicate Valid()
      reads this
    {
      forall u | u in workflowUrls :: Acceptable(u, config.baseUrl)
    }

    constructor (config: Config)
      ensures Valid() && this.config == config
      ensures workflowUrls == {} && downloadedCount == 0 && failedDownloads == []
    {
      this.config := config;
      workflowUrls := {};
      downloadedCount := 0;
      failedDownloads := [];
    }

    /** The collection loop: scan the anchors of each round, then compare the
        height after the scroll with the last one; stop at the target (tested
        at the loop head), after MaxNoNewAttempts unchanged heights in a row,
        or when the recorded rounds run out. Returns the set as a list. */
    method ScrollAndCollectUrls(initialHeight: int, rounds: seq<Round>) returns (urls: seq<string>)
      requires Valid()
      modifies this`workflowUrls
      ensures Valid()
      ensures workflowUrls
           == CollectFrom(Start(old(workflowUrls), initialHeight), rounds, config.targetCount, config.baseUrl).urls
      ensures |urls| == |workflowUrls| && Distinct(urls)
      ensures forall u :: u in urls <==> u in workflowUrls
    {
      var lastHeight := initialHeight;
      var noNewCount := 0;
      var scrolls := 0;
      ghost var final := CollectFrom(Start(workflowUrls, initialHeight), rounds, config.targetCount, config.baseUrl);
      while |workflowUrls| < config.targetCount && scrolls < |rounds|
        invariant scrolls <= |rounds| && Valid()
        invariant CollectFrom(LoopState(workflowUrls, lastHeight, noNewCount, scrolls), rounds, config.targetCount, config.baseUrl)
               == final
        decreases |rounds| - scrolls
      {
        var round := rounds[scrolls];
        ghost var c := LoopState(workflowUrls, lastHeight, noNewCount, scrolls);
        ScanAnchors(round.hrefs);
        CollectFromStep(c, rounds, config.targetCount, config.baseUrl, workflowUrls);
        var newHeight := round.height;
        scrolls := scrolls + 1;
        if newHeight == lastHeight {
          noNewCount := noNewCount + 1;
          if noNewCount >= MaxNoNewAttempts {
            assert LoopState(workflowUrls, lastHeight, noNewCount, scrolls) == final;
            break;
          }
        } else {
          noNewCount := 0;
          lastHeight := newHeight;
        }
      }
      assert LoopState(workflowUrls, lastHeight, noNewCount, scrolls) == final;
      urls := ListOf(workflowUrls);
    }

    /** The scan of one round's anchors: keep each href that passes the filter. */
    method ScanAnchors(hrefs: seq<Option<string>>)
      requires Valid()
      modifies this`workflowUrls
      ensures Valid()
      ensures workflowUrls == AddHrefs(old(workflowUrls), hrefs, config.baseUrl)
    {
      var j := 0;
      while j < |hrefs|
        invariant j <= |hrefs| && Valid()
        invariant workflowUrls == AddHrefs(old(workflowUrls), hrefs[..j], config.baseUrl)
      {
        assert hrefs[..j + 1][..j] == hrefs[..j];
        match hrefs[j] {
          case Some(url) =>
            if url != "" && Contains(url, WorkflowsMarker) && url !in workflowUrls {
              if url != config.baseUrl && !EndsWith(url, ListingSuffix) {
                workflowUrls := workflowUrls + {url};
              }
            }
          case None =>
        }
        j := j + 1;
      }
      assert hrefs[..j] == hrefs;
    }

    /** One URL: succeed and count it, or record the URL as failed. Exactly one
        of the two happens, and success is decided by Succeeds. On success the
        file's new name is returned: `workflow_<index>.json` unless a file of
        that name is already listed, the timestamped name otherwise. */
    method DownloadWorkflow(url: string, index: nat, page: Page) returns (ok: bool, saved: Option<string>)
      modifies this`downloadedCount, this`failedDownloads
      ensures ok == Succeeds(page) && saved == SavedName(index, page)
      ensures ok ==> saved.Some? && downloadedCount == old(downloadedCount) + 1 && failedDownloads == old(failedDownloads)
      ensures !ok ==> saved.None? && downloadedCount == old(downloadedCount) && failedDownloads == old(failedDownloads) + [url]
      ensures ok ==>
        saved.value == RenameTarget(index, page.listing(FirstReadyPoll(page.before, page.listing).value), page.timestamp)
    {
      var outcome := AttemptDownload(index, page);
      match outcome {
        case Saved(_, target) =>
          downloadedCount := downloadedCount + 1;
          ok, saved := true, Some(target);
        case _ =>
          failedDownloads := failedDownloads + [url];
          ok, saved := false, None;
      }
    }

    /** The merge loop over the globbed files, in listing order; returns the
        merged document and its length. */
    method MergeJsonFiles<P>(listing: seq<string>, parse: string -> Option<P>) returns (merged: seq<Entry<P>>, count: nat)
      ensures merged == Merged(GlobWorkflowFiles(listing), parse)
      ensures count == |merged|
    {
      var files := GlobWorkflowFiles(listing);
      merged := [];
      for i := 0 to |files|
        invariant merged == Merged(files[..i], parse)
      {
        assert files[..i + 1][..i] == files[..i];
        match parse(files[i]) {
          case Some(data) =>
            merged := merged + [Entry(files[i], data)];
          case None =>
        }
      }
      assert files[..|files|] == files;
      count := |merged|;
    }

    /** The per-URL loop of the run: URL `urls[k]` is visited with index
        `k + 1`; the successes are counted, the failures appended in order, and
        the new names of the saved files returned in order. */
    method DownloadAll(urls: seq<string>, visit: nat -> Page) returns (names: seq<string>)
      modifies this`downloadedCount, this`failedDownloads
      ensures downloadedCount == old(downloadedCount) + Successes(|urls|, visit)
      ensures failedDownloads == old(failedDownloads) + Failures(urls, visit)
      ensures names == SavedNames(|urls|, visit)
    {
      names := [];
      var idx := 1;
      while idx <= |urls|
        invariant 1 <= idx <= |urls| + 1
        invariant failedDownloads == old(failedDownloads) + Failures(urls[..idx - 1], visit)
        invariant downloadedCount == old(downloadedCount) + Successes(idx - 1, visit)
        invariant names == SavedNames(idx - 1, visit)
      {
        TallyStep(urls, visit, idx - 1);
        var ok, saved := DownloadWorkflow(urls[idx - 1], idx, visit(idx));
        match saved {
          case Some(name) => names := names + [name];
          case None =>
        }
        idx := idx + 1;
      }
      assert urls[..idx - 1] == urls;
    }

    /** Collection, then one download per collected URL numbered from 1, then
        the merge of the folder as listed at the end. Returns the collected
        list, in the order it was processed, the new names of the saved files
        and the merged document. Each
        collected URL adds one to exactly one of the two counters. */
    method Run<P>(initialHeight: int, rounds: seq<Round>, visit: nat -> Page,
                  finalListing: seq<string>, parse: string -> Option<P>)
      returns (urls: seq<string>, names: seq<string>, merged: seq<Entry<P>>)
      requires Valid()
      modifies this`workflowUrls, this`downloadedCount, this`failedDownloads
      ensures Valid()
      ensures workflowUrls
           == CollectFrom(Start(old(workflowUrls), initialHeight), rounds, config.targetCount, config.baseUrl).urls
      ensures |urls| == |workflowUrls| && Distinct(urls) && forall u :: u in urls <==> u in workflowUrls
      ensures downloadedCount == old(downloadedCount) + Successes(|urls|, visit)
      ensures failedDownloads == old(failedDownloads) + Failures(urls, visit)
      ensures downloadedCount + |failedDownloads| == old(downloadedCount) + |old(failedDownloads)| + |workflowUrls|
      ensures |old(failedDownloads)| <= |failedDownloads|
      ensures failedDownloads[..|old(failedDownloads)|] == old(failedDownloads)
      ensures forall u | u in failedDownloads[|old(failedDownloads)|..] :: u in workflowUrls
      ensures Distinct(failedDownloads[|old(failedDownloads)|..])
      ensures names == SavedNames(|urls|, visit)
      ensures merged == Merged(GlobWorkflowFiles(finalListing), parse)
    {
      urls := ScrollAndCollectUrls(initialHeight, rounds);
      ghost var failed0 := failedDownloads;
      names := DownloadAll(urls, visit);
      AppendedFailures(failed0, urls, visit);
      var mergedCount;
      merged, mergedCount := MergeJsonFiles(finalListing, parse);
    }
  }
}
