/** The URL collector's decision logic: which scraped links are kept, how one
    scroll updates the stagnation counter, and when collection stops. The
    browser's answers arrive as a sequence of recorded rounds. */
module Collector {
  import opened Wrappers
  import opened Text

  /** Consecutive scrolls without a height change after which collection gives up. */
  const MaxNoNewAttempts := 5

  const WorkflowsMarker := "/workflows/"
  const ListingSuffix := "/workflows/all"

  /** The filter a scraped href must pass to be collected: present and
      non-empty, pointing below `/workflows/`, and neither the listing page
      itself nor any `/workflows/all` page. */
  predicate Acceptable(url: string, baseUrl: string)
  {
    url != "" && Contains(url, WorkflowsMarker) && url != baseUrl && !EndsWith(url, ListingSuffix)
  }

  /** What the browser reported in one pass of the collection loop: the href
      of every anchor it read (`None` when the attribute was missing or the
      element went stale; anchors after a scraping error are simply absent),
      and the page height measured after scrolling. */
  datatype Round = Round(hrefs: seq<Option<string>>, height: int)

  /** The state carried from one pass to the next; `scrolls` counts the
      passes made, i.e. the rounds consumed. */
  datatype LoopState = LoopState(urls: set<string>, lastHeight: int, noNewCount: nat, scrolls: nat)

  function Start(urls: set<string>, height: int): LoopState
  {
    LoopState(urls, height, 0, 0)
  }

  function AddHref(urls: set<string>, href: Option<string>, baseUrl: string): set<string>
  {
    match href
    case Some(url) => if Acceptable(url, baseUrl) then urls + {url} else urls
    case None => urls
  }

  /** The inner loop over one round's anchors, one href at a time. */
  function AddHrefs(urls: set<string>, hrefs: seq<Option<string>>, baseUrl: string): set<string>
  {
    if hrefs == [] then urls
    else AddHref(AddHrefs(urls, hrefs[..|hrefs| - 1], baseUrl), hrefs[|hrefs| - 1], baseUrl)
  }

  /** The hrefs of one round that pass the filter. */
  function Accepted(hrefs: seq<Option<string>>, baseUrl: string): set<string>
  {
    set i | 0 <= i < |hrefs| && hrefs[i].Some? && Acceptable(hrefs[i].value, baseUrl) :: hrefs[i].value
  }

  /** Scanning a round adds exactly the accepted hrefs, whatever their order or repetitions. */
  lemma {:induction false} AddHrefsAddsAccepted(urls: set<string>, hrefs: seq<Option<string>>, baseUrl: string)
    ensures AddHrefs(urls, hrefs, baseUrl) == urls + Accepted(hrefs, baseUrl)
  {
    if hrefs != [] {
      var init := hrefs[..|hrefs| - 1];
      AddHrefsAddsAccepted(urls, init, baseUrl);
      var acc, accInit := Accepted(hrefs, baseUrl), Accepted(init, baseUrl);
      var last := hrefs[|hrefs| - 1];
      assert forall i | 0 <= i < |init| :: init[i] == hrefs[i];
      if last.Some? && Acceptable(last.value, baseUrl) {
        assert acc == accInit + {last.value};
      } else {
        assert acc == accInit;
      }
    }
  }

  /** One pass of the loop body: add the round's accepted hrefs, then compare
      the new height with the last one. After a pass the last height is the
      one just measured, and the counter is zero exactly when the height moved
      (ScrollAddsAccepted gives the URLs it adds). */
  function Scroll(c: LoopState, r: Round, baseUrl: string): (d: LoopState)
    ensures d.lastHeight == r.height
    ensures d.noNewCount == 0 <==> r.height != c.lastHeight
    ensures d.noNewCount != 0 ==> d.noNewCount == c.noNewCount + 1
    ensures d.scrolls == c.scrolls + 1
  {
    var urls := AddHrefs(c.urls, r.hrefs, baseUrl);
    if r.height == c.lastHeight then LoopState(urls, c.lastHeight, c.noNewCount + 1, c.scrolls + 1)
    else LoopState(urls, r.height, 0, c.scrolls + 1)
  }

  /** The URLs after a pass are the earlier ones plus the round's accepted hrefs. */
  lemma ScrollAddsAccepted(c: LoopState, r: Round, baseUrl: string)
    ensures Scroll(c, r, baseUrl).urls == c.urls + Accepted(r.hrefs, baseUrl)
  {
    AddHrefsAddsAccepted(c.urls, r.hrefs, baseUrl);
  }

  /** The whole collection loop from state `c`: the target is tested at the
      loop head only, and the loop breaks right after the stagnation counter
      reaches its limit. It also ends when the recorded rounds run out. */
  function CollectFrom(c: LoopState, rounds: seq<Round>, target: int, baseUrl: string): LoopState
    decreases |rounds| - c.scrolls
  {
    if |c.urls| >= target || c.scrolls >= |rounds| then c
    else
      var d := Scroll(c, rounds[c.scrolls], baseUrl);
      if d.noNewCount >= MaxNoNewAttempts then d else CollectFrom(d, rounds, target, baseUrl)
  }

  /** One pass of the loop, unfolded, with the scanned URL set given: either
      it breaks on stagnation or the loop continues from the new state. */
  lemma CollectFromStep(c: LoopState, rounds: seq<Round>, target: int, baseUrl: string, urls: set<string>)
    requires |c.urls| < target && c.scrolls < |rounds|
    requires urls == AddHrefs(c.urls, rounds[c.scrolls].hrefs, baseUrl)
    ensures var h := rounds[c.scrolls].height;
      var d := if h == c.lastHeight then LoopState(urls, c.lastHeight, c.noNewCount + 1, c.scrolls + 1)
               else LoopState(urls, h, 0, c.scrolls + 1);
      CollectFrom(c, rounds, target, baseUrl)
        == if d.noNewCount >= MaxNoNewAttempts then d else CollectFrom(d, rounds, target, baseUrl)
  {
  }

  /** On exit the target is reached, or the height stood still for the limit
      of consecutive scrolls, or every recorded round was consumed. */
  lemma {:induction false} CollectStops(c: LoopState, rounds: seq<Round>, target: int, baseUrl: string)
    requires c.scrolls <= |rounds| && c.noNewCount < MaxNoNewAttempts
    ensures var d := CollectFrom(c, rounds, target, baseUrl);
      c.scrolls <= d.scrolls <= |rounds| && d.noNewCount <= MaxNoNewAttempts &&
      (|d.urls| >= target || d.noNewCount == MaxNoNewAttempts || d.scrolls == |rounds|)
    decreases |rounds| - c.scrolls
  {
    if !(|c.urls| >= target || c.scrolls >= |rounds|) {
      var d := Scroll(c, rounds[c.scrolls], baseUrl);
      if d.noNewCount < MaxNoNewAttempts {
        CollectStops(d, rounds, target, baseUrl);
      }
    }
  }

  /** The collection gains exactly the accepted hrefs of the consumed rounds:
      every URL it gains passes the filter and was scraped in a consumed
      round, and every accepted href of every consumed round is collected. */
  lemma {:induction false} CollectKeepsExactlyAccepted(c: LoopState, rounds: seq<Round>, target: int, baseUrl: string)
    ensures var d := CollectFrom(c, rounds, target, baseUrl);
      c.urls <= d.urls && c.scrolls <= d.scrolls &&
      (forall u | u in d.urls :: u in c.urls || Acceptable(u, baseUrl)) &&
      (forall u | u in d.urls :: u in c.urls ||
        exists k | c.scrolls <= k < d.scrolls && k < |rounds| :: u in Accepted(rounds[k].hrefs, baseUrl)) &&
      (forall k | c.scrolls <= k < d.scrolls && k < |rounds| :: Accepted(rounds[k].hrefs, baseUrl) <= d.urls)
    decreases |rounds| - c.scrolls
  {
    if !(|c.urls| >= target || c.scrolls >= |rounds|) {
      var s := Scroll(c, rounds[c.scrolls], baseUrl);
      ScrollAddsAccepted(c, rounds[c.scrolls], baseUrl);
      var d := CollectFrom(c, rounds, target, baseUrl);
      if s.noNewCount < MaxNoNewAttempts {
        CollectKeepsExactlyAccepted(s, rounds, target, baseUrl);
      }
      assert d.scrolls >= s.scrolls && s.urls <= d.urls;
      forall u | u in d.urls && u !in c.urls
        ensures exists k | c.scrolls <= k < d.scrolls && k < |rounds| :: u in Accepted(rounds[k].hrefs, baseUrl)
      {
        if u in s.urls {
          assert u in Accepted(rounds[c.scrolls].hrefs, baseUrl);
        } else {
          var k :| s.scrolls <= k < d.scrolls && k < |rounds| && u in Accepted(rounds[k].hrefs, baseUrl);
        }
      }
    }
  }

  /** The stagnation counter counts a run of scrolls that really left the
      height unchanged: the last `noNewCount` consumed rounds all reported the
      current last height. */
  ghost predicate FlatTail(c: LoopState, rounds: seq<Round>)
  {
    c.noNewCount <= c.scrolls <= |rounds| &&
    forall k | c.scrolls - c.noNewCount <= k < c.scrolls :: rounds[k].height == c.lastHeight
  }

  /** The collection loop keeps FlatTail; in particular, a stop on stagnation
      follows five rounds that all reported the same height. */
  lemma {:induction false} CollectKeepsFlatTail(c: LoopState, rounds: seq<Round>, target: int, baseUrl: string)
    requires FlatTail(c, rounds)
    ensures FlatTail(CollectFrom(c, rounds, target, baseUrl), rounds)
    decreases |rounds| - c.scrolls
  {
    if !(|c.urls| >= target || c.scrolls >= |rounds|) {
      var d := Scroll(c, rounds[c.scrolls], baseUrl);
      assert FlatTail(d, rounds);
      if d.noNewCount < MaxNoNewAttempts {
        CollectKeepsFlatTail(d, rounds, target, baseUrl);
      }
    }
  }

  /** Once the height stops changing, collection ends within the remaining
      allowance of scrolls, whether or not the target has been reached. */
  lemma {:induction false} FlatHeightsHalt(c: LoopState, rounds: seq<Round>, target: int, baseUrl: string)
    requires c.noNewCount < MaxNoNewAttempts
    requires forall k | c.scrolls <= k < |rounds| && k < c.scrolls + MaxNoNewAttempts - c.noNewCount ::
      rounds[k].height == c.lastHeight
    ensures CollectFrom(c, rounds, target, baseUrl).scrolls <= c.scrolls + MaxNoNewAttempts - c.noNewCount
    decreases |rounds| - c.scrolls
  {
    if !(|c.urls| >= target || c.scrolls >= |rounds|) {
      var d := Scroll(c, rounds[c.scrolls], baseUrl);
      if d.noNewCount < MaxNoNewAttempts {
        FlatHeightsHalt(d, rounds, target, baseUrl);
      }
    }
  }

  /** The target is only tested before a round is scanned, so one round can
      carry the collection past it: with a target of one, a round offering two
      different acceptable links yields both. */
  lemma CollectMayOvershoot(a: string, b: string, baseUrl: string, height: int)
    requires Acceptable(a, baseUrl) && Acceptable(b, baseUrl) && a != b
    ensures |CollectFrom(Start({}, 0), [Round([Some(a), Some(b)], height)], 1, baseUrl).urls| == 2
  {
    var c, r := Start({}, 0), Round([Some(a), Some(b)], height);
    assert Accepted(r.hrefs, baseUrl) == {a, b} by {
      assert r.hrefs[0].value == a && r.hrefs[1].value == b;
    }
    ScrollAddsAccepted(c, r, baseUrl);
    var d := Scroll(c, r, baseUrl);
    assert CollectFrom(c, [r], 1, baseUrl) == CollectFrom(d, [r], 1, baseUrl) == d;
  }
}
