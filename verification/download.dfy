/** The per-URL download decision: the first selector that finds a download
    control, the bounded poll of the download directory for a completed file,
    the name the file is renamed to, and the success/failure tally over a run. */
module Download {
  import opened Wrappers
  import opened Text
  import opened Naming

  /** The XPath locators tried, in this order, for the download control. */
  const Selectors: seq<string> := [
    "//button[contains(text(), 'Download')]",
    "//button[contains(text(), 'download')]",
    "//a[contains(text(), 'Download')]",
    "//button[contains(@class, 'download')]",
    "//a[contains(@href, '.json')]",
    "//button[.//span[contains(text(), 'Download')]]"
  ]

  /** Number of directory polls before a download is given up. */
  const MaxWait := 30

  /** The first `k` with `i <= k < n` that satisfies `p`, if any. */
  function FirstFrom(p: nat -> bool, i: nat, n: nat): Option<nat>
    decreases n - i
  {
    if i >= n then None else if p(i) then Some(i) else FirstFrom(p, i + 1, n)
  }

  /** FirstFrom finds the least satisfying index, and finds none only when there is none. */
  lemma {:induction false} FirstFromIsFirst(p: nat -> bool, i: nat, n: nat)
    ensures match FirstFrom(p, i, n)
      case Some(k) => i <= k < n && p(k) && forall j | i <= j < k :: !p(j)
      case None => forall j | i <= j < n :: !p(j)
    decreases n - i
  {
    if i < n && !p(i) {
      FirstFromIsFirst(p, i + 1, n);
    }
  }

  /** Selector `k` exists and, on the loaded page, finds an element. */
  function SelectorHits(finds: string -> bool): nat -> bool
  {
    (k: nat) => k < |Selectors| && finds(Selectors[k])
  }

  /** The selector whose element is used as the download control. */
  function ButtonSelector(finds: string -> bool): Option<nat>
  {
    FirstFrom(SelectorHits(finds), 0, |Selectors|)
  }

  /** Names that mark a download still in progress. */
  predicate IsPartial(name: string)
  {
    EndsWith(name, ".crdownload") || EndsWith(name, ".tmp")
  }

  /** The files that count as completed downloads: present now, absent from
      the listing taken before the click, and not a partial download. */
  function Completed(before: set<string>, current: set<string>): set<string>
  {
    set f | f in current - before && !IsPartial(f)
  }

  /** Poll number `e` sees a completed file. */
  function PollReady(before: set<string>, listing: nat -> set<string>): nat -> bool
  {
    (e: nat) => Completed(before, listing(e)) != {}
  }

  /** The poll that first sees a completed file, within the wait bound. */
  function FirstReadyPoll(before: set<string>, listing: nat -> set<string>): Option<nat>
  {
    FirstFrom(PollReady(before, listing), 0, MaxWait)
  }

  /** A spelled-out partial download next to a finished one: only the finished
      one is completed, and files present before the click never are. */
  lemma PartialDownloadsIgnored()
    ensures Completed({"workflow_1.json"},
                      {"workflow_1.json", "flow.json", "flow.json.crdownload", "flow.tmp"})
         == {"flow.json"}
  {
  }

  /** What one visit to a workflow page shows. `Aborted` stands for the page
      load timing out or any other error raised during the visit. On a loaded
      page, `finds` says which selectors find an element, `before` is the
      directory listing taken just before the click, `listing(e)` the one read
      at poll `e`, and `timestamp` the clock value used for a colliding name. */
  datatype Page =
    | Aborted
    | Loaded(finds: string -> bool, before: set<string>, listing: nat -> set<string>, timestamp: nat)

  datatype Outcome =
    | PageError
    | NoButton
    | TimedOut
    | Saved(file: string, target: string)

  /** A visit ends in a saved file. */
  predicate Succeeds(page: Page)
  {
    page.Loaded? && ButtonSelector(page.finds).Some? && FirstReadyPoll(page.before, page.listing).Some?
  }

  /** A visit succeeds exactly when some selector finds a control and some
      poll within the bound sees a completed file. */
  lemma SucceedsIff(page: Page)
    requires page.Loaded?
    ensures Succeeds(page) <==>
      (exists k | 0 <= k < |Selectors| :: page.finds(Selectors[k])) &&
      (exists e | 0 <= e < MaxWait :: Completed(page.before, page.listing(e)) != {})
  {
    var hit, ready := SelectorHits(page.finds), PollReady(page.before, page.listing);
    FirstFromIsFirst(hit, 0, |Selectors|);
    FirstFromIsFirst(ready, 0, MaxWait);
    if (exists k | 0 <= k < |Selectors| :: page.finds(Selectors[k])) {
      var k :| 0 <= k < |Selectors| && page.finds(Selectors[k]);
      assert hit(k);
    }
    if (exists e | 0 <= e < MaxWait :: Completed(page.before, page.listing(e)) != {}) {
      var e :| 0 <= e < MaxWait && Completed(page.before, page.listing(e)) != {};
      assert ready(e);
    }
  }

  /** The selector loop: try each locator in order and keep the first that finds an element. */
  method FindDownloadButton(finds: string -> bool) returns (button: Option<nat>)
    ensures button == ButtonSelector(finds)
    ensures button.Some? ==> button.value < |Selectors| && finds(Selectors[button.value])
    ensures button.Some? ==> forall j | 0 <= j < button.value :: !finds(Selectors[j])
    ensures button.None? ==> forall j | 0 <= j < |Selectors| :: !finds(Selectors[j])
  {
    ghost var hit := SelectorHits(finds);
    FirstFromIsFirst(hit, 0, |Selectors|);
    assert forall j | 0 <= j < |Selectors| :: hit(j) == finds(Selectors[j]);
    var k := 0;
    while k < |Selectors|
      invariant 0 <= k <= |Selectors|
      invariant FirstFrom(hit, k, |Selectors|) == ButtonSelector(finds)
    {
      if finds(Selectors[k]) {
        return Some(k);
      }
      k := k + 1;
    }
    return None;
  }

  /** The bounded poll: read the listing up to MaxWait times and stop at the
      first poll that shows a completed file, returning one such file (the
      listing is unordered, so which one is not determined) and the poll count. */
  method PollForDownload(before: set<string>, listing: nat -> set<string>) returns (found: Option<string>, elapsed: nat)
    ensures elapsed <= MaxWait
    ensures found.Some? <==> FirstReadyPoll(before, listing).Some?
    ensures found.Some? ==>
      elapsed == FirstReadyPoll(before, listing).value && found.value in Completed(before, listing(elapsed))
    ensures found.None? ==> elapsed == MaxWait
  {
    ghost var ready := PollReady(before, listing);
    elapsed := 0;
    while elapsed < MaxWait
      invariant elapsed <= MaxWait
      invariant FirstFrom(ready, elapsed, MaxWait) == FirstReadyPoll(before, listing)
    {
      var current := listing(elapsed);
      var newFiles := current - before;
      var completed := set f | f in newFiles && !IsPartial(f);
      if completed != {} {
        var f :| f in completed;
        return Some(f), elapsed;
      }
      elapsed := elapsed + 1;
    }
    return None, elapsed;
  }

  /** One visit: find the control, poll for the file, choose its new name.
      The rename's existence test is made against the listing that showed the file. */
  method AttemptDownload(index: nat, page: Page) returns (outcome: Outcome)
    ensures outcome.PageError? <==> page.Aborted?
    ensures outcome.NoButton? <==> page.Loaded? && ButtonSelector(page.finds).None?
    ensures outcome.TimedOut? <==>
      page.Loaded? && ButtonSelector(page.finds).Some? && FirstReadyPoll(page.before, page.listing).None?
    ensures outcome.Saved? <==> Succeeds(page)
    ensures outcome.Saved? ==>
      var e := FirstReadyPoll(page.before, page.listing).value;
      outcome.file in Completed(page.before, page.listing(e)) &&
      outcome.target == RenameTarget(index, page.listing(e), page.timestamp)
  {
    match page
    case Aborted =>
      return PageError;
    case Loaded(finds, before, listing, timestamp) =>
      var button := FindDownloadButton(finds);
      if button.None? {
        return NoButton;
      }
      var found, elapsed := PollForDownload(before, listing);
      if found.None? {
        return TimedOut;
      }
      var target := RenameTarget(index, listing(elapsed), timestamp);
      return Saved(found.value, target);
  }

  /** The URLs of `urls` whose visit fails, in order; `urls[k]` is visited
      with index `k + 1`, as `enumerate(urls, 1)` numbers them. */
  function Failures(urls: seq<string>, visit: nat -> Page): seq<string>
  {
    if urls == [] then []
    else
      var k := |urls| - 1;
      Failures(urls[..k], visit) + (if Succeeds(visit(k + 1)) then [] else [urls[k]])
  }

  /** How many of the visits with indices 1 to n succeed. */
  function Successes(n: nat, visit: nat -> Page): nat
  {
    if n == 0 then 0 else Successes(n - 1, visit) + (if Succeeds(visit(n)) then 1 else 0)
  }

  /** The name the downloaded file of a visit numbered `index` is renamed to:
      the rename target of the listing at the first poll that shows a
      completed file; none when the visit fails. */
  function SavedName(index: nat, page: Page): Option<string>
  {
    if Succeeds(page) then
      Some(RenameTarget(index, page.listing(FirstReadyPoll(page.before, page.listing).value), page.timestamp))
    else None
  }

  /** The names given to the files of the visits numbered 1 to n, in order. */
  function SavedNames(n: nat, visit: nat -> Page): seq<string>
  {
    if n == 0 then []
    else SavedNames(n - 1, visit) + (match SavedName(n, visit(n)) case Some(name) => [name] case None => [])
  }

  /** One saved name per successful visit: every name belongs to a visit
      numbered between 1 and n, and the merge's glob matches them all. */
  lemma {:induction false} SavedNamesNumbered(n: nat, visit: nat -> Page)
    ensures |SavedNames(n, visit)| == Successes(n, visit)
    ensures forall name | name in SavedNames(n, visit) ::
      MatchesGlob(name) && exists k | 1 <= k <= n :: SavedName(k, visit(k)) == Some(name)
  {
    if n > 0 {
      SavedNamesNumbered(n - 1, visit);
      var init := SavedNames(n - 1, visit);
      var page := visit(n);
      if Succeeds(page) {
        var name := SavedName(n, page).value;
        RenameTargetMatchesGlob(n, page.listing(FirstReadyPoll(page.before, page.listing).value), page.timestamp);
        assert SavedNames(n, visit) == init + [name];
        assert SavedName(n, visit(n)) == Some(name);
      } else {
        assert SavedNames(n, visit) == init;
      }
    }
  }

  /** Every successful visit numbered between 1 and n has its name among the saved names. */
  lemma {:induction false} SavedNamesComplete(n: nat, visit: nat -> Page)
    ensures forall k | 1 <= k <= n && Succeeds(visit(k)) :: SavedName(k, visit(k)).value in SavedNames(n, visit)
  {
    if n > 0 {
      SavedNamesComplete(n - 1, visit);
      var init := SavedNames(n - 1, visit);
      assert SavedNames(n, visit)[..|init|] == init;
      if Succeeds(visit(n)) {
        assert SavedNames(n, visit) == init + [SavedName(n, visit(n)).value];
      }
    }
  }

  /** On a successful visit, no file has the primary name yet when the
      download shows up. */
  predicate PrimaryFree(index: nat, page: Page)
  {
    Succeeds(page) ==> PrimaryName(index) !in page.listing(FirstReadyPoll(page.before, page.listing).value)
  }

  /** Numbering the visits gives each file its own name: when every primary
      name is free, each saved name is `workflow_<k>.json` for its visit `k`,
      and no two saved files share a name. */
  lemma {:induction false} SavedNamesDistinct(n: nat, visit: nat -> Page)
    requires forall k | 1 <= k <= n :: PrimaryFree(k, visit(k))
    ensures forall name | name in SavedNames(n, visit) :: exists k | 1 <= k <= n :: name == PrimaryName(k)
    ensures Distinct(SavedNames(n, visit))
  {
    if n > 0 {
      SavedNamesDistinct(n - 1, visit);
      var page := visit(n);
      if Succeeds(page) {
        var listing := page.listing(FirstReadyPoll(page.before, page.listing).value);
        assert PrimaryFree(n, page);
        RenameTargetPrimaryIffFree(n, listing, page.timestamp);
        var init := SavedNames(n - 1, visit);
        assert SavedNames(n, visit) == init + [PrimaryName(n)];
        forall name | name in init
          ensures name != PrimaryName(n)
        {
          var k :| 1 <= k <= n - 1 && name == PrimaryName(k);
          PrimaryNameInjective(k, n);
        }
        assert Distinct(init + [PrimaryName(n)]) by {
          forall i, j | 0 <= i < j < |init| + 1
            ensures (init + [PrimaryName(n)])[i] != (init + [PrimaryName(n)])[j]
          {
            if j == |init| {
              assert init[i] in init;
            }
          }
        }
      }
    }
  }

  /** Processing URL number `i + 1` extends the failures or the successes by
      it, and the saved names by its file's name when it succeeds. */
  lemma TallyStep(urls: seq<string>, visit: nat -> Page, i: nat)
    requires i < |urls|
    ensures Failures(urls[..i + 1], visit)
         == Failures(urls[..i], visit) + (if Succeeds(visit(i + 1)) then [] else [urls[i]])
    ensures Successes(i + 1, visit) == Successes(i, visit) + (if Succeeds(visit(i + 1)) then 1 else 0)
    ensures SavedNames(i + 1, visit)
         == SavedNames(i, visit) + (match SavedName(i + 1, visit(i + 1)) case Some(name) => [name] case None => [])
  {
    assert urls[..i + 1][..i] == urls[..i];
  }

  /** Every URL processed is counted exactly once: as a success or as a failure. */
  lemma {:induction false} DownloadAccounting(urls: seq<string>, visit: nat -> Page)
    ensures Successes(|urls|, visit) + |Failures(urls, visit)| == |urls|
  {
    if urls != [] {
      DownloadAccounting(urls[..|urls| - 1], visit);
    }
  }

  /** The failure list holds only processed URLs, and repeats none when the URLs are distinct. */
  lemma {:induction false} FailuresFromUrls(urls: seq<string>, visit: nat -> Page)
    ensures forall u | u in Failures(urls, visit) :: u in urls
    ensures Distinct(urls) ==> Distinct(Failures(urls, visit))
  {
    if urls != [] {
      var init := urls[..|urls| - 1];
      FailuresFromUrls(init, visit);
      assert forall u | u in init :: u in urls;
      if Distinct(urls) {
        assert Distinct(init);
        assert urls[|urls| - 1] !in init;
      }
    }
  }

  /** A failure list that had `failures` appended keeps its old part as a
      prefix, and its new part holds distinct processed URLs (when the URLs are
      distinct) and, with the successes, one entry per URL. */
  lemma AppendedFailures(failed0: seq<string>, urls: seq<string>, visit: nat -> Page)
    requires Distinct(urls)
    ensures var failed := failed0 + Failures(urls, visit);
      |failed0| <= |failed| && failed[..|failed0|] == failed0 &&
      (forall u | u in failed[|failed0|..] :: u in urls) &&
      Distinct(failed[|failed0|..]) &&
      Successes(|urls|, visit) + |failed| == |failed0| + |urls|
  {
    var failed := failed0 + Failures(urls, visit);
    assert failed[|failed0|..] == Failures(urls, visit);
    assert failed[..|failed0|] == failed0;
    DownloadAccounting(urls, visit);
    FailuresFromUrls(urls, visit);
  }
}
