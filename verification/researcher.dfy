/** The researcher stage (agents/researcher.py): search once per plan
    step, stamp each hit with its step's index, keep the first result per
    non-empty URL across all steps, abort on a configuration error and skip
    a step whose search failed otherwise. */
module ResearcherAgent {
  import opened Wrappers
  import opened Text
  import opened Dedup
  import opened Search
  import opened State

  /** A search that raised `ValueError`: the provider is misconfigured. */
  predicate IsConfigError(o: SearchOutcome) {
    o.Raised? && o.kind == ValueError
  }

  function StampOne(h: Hit, idx: nat): SearchResult {
    SearchResult(h.title, h.url, h.snippet, idx)
  }

  function Stamp(hits: seq<Hit>, idx: nat): (r: seq<SearchResult>)
    ensures |r| == |hits|
  {
    seq(|hits|, i requires 0 <= i < |hits| => StampOne(hits[i], idx))
  }

  /** What step `idx` contributes before deduplication: its hits, stamped,
      or nothing when its search raised. */
  function StepHits(o: SearchOutcome, idx: nat): seq<SearchResult> {
    if o.Hits? then Stamp(o.hits, idx) else []
  }

  /** Every step's contribution, in step order. */
  function Stamped(outs: seq<SearchOutcome>): seq<SearchResult>
    decreases |outs|
  {
    if outs == [] then []
    else Stamped(outs[..|outs| - 1]) + StepHits(outs[|outs| - 1], |outs| - 1)
  }

  /** The message of the first configuration error, if any step had one. */
  function FirstConfigError(outs: seq<SearchOutcome>): Option<string>
    decreases |outs|
  {
    if outs == [] then None
    else
      var earlier := FirstConfigError(outs[..|outs| - 1]);
      var last := outs[|outs| - 1];
      if earlier.Some? then earlier
      else if IsConfigError(last) then Some(last.error)
      else None
  }

  /** What the loop ends with: aborted by a configuration error, or the
      collected results. */
  datatype Gathered = Aborted(error: string) | Collected(results: seq<SearchResult>)

  function Gather(outs: seq<SearchOutcome>): (g: Gathered)
    ensures g.Aborted? <==> FirstConfigError(outs).Some?
    ensures g.Collected? ==> |g.results| <= |Stamped(outs)|
  {
    match FirstConfigError(outs)
    case Some(e) => Aborted(e)
    case None => Collected(KeepFirst(Stamped(outs), UrlOf))
  }

  /** The search the researcher runs for each step, in plan order. */
  function StepOutcomes(plan: seq<string>, search: string -> SearchOutcome): (outs: seq<SearchOutcome>)
    ensures |outs| == |plan|
  {
    seq(|plan|, i requires 0 <= i < |plan| => search(plan[i]))
  }

  function ResultsUpdate(results: seq<SearchResult>, message: string): Update {
    Update([Ai(message)], None, Some(results), None, None, None, None)
  }

  /** `researcher_node(state)` with the configured `search` already applied
      to provider and count. */
  function ResearcherNode(s: Record, search: string -> SearchOutcome): (u: Update)
    ensures OnlyResults(u) && |u.messages| == 1
    ensures s.plan == [] ==> u == ResultsUpdate([], Warning + "No research plan to execute")
  {
    if s.plan == [] then ResultsUpdate([], Warning + "No research plan to execute")
    else
      match Gather(StepOutcomes(s.plan, search))
      case Aborted(e) => ResultsUpdate([], Warning + "Search configuration error: " + e)
      case Collected(results) =>
        if results == [] then ResultsUpdate([], Warning + "No search results found for any step")
        else
          ResultsUpdate(results, "Found " + NatToString(|results|) + " unique results across "
                                 + NatToString(|s.plan|) + " research steps")
  }

  /** The inner loop over one step's hits: `all` and `seen` extended as
      deduplication of the stamped hits demands. */
  method AddHits(ghost before: seq<SearchResult>, all: seq<SearchResult>, seen: set<string>, hits: seq<Hit>, idx: nat)
    returns (all': seq<SearchResult>, seen': set<string>)
    requires all == KeepFirst(before, UrlOf) && seen == KeySet(all, UrlOf)
    ensures all' == KeepFirst(before + Stamp(hits, idx), UrlOf)
    ensures seen' == KeySet(all', UrlOf)
  {
    ghost var stamped := Stamp(hits, idx);
    all', seen' := all, seen;
    var j := 0;
    assert before + stamped[..0] == before;
    while j < |hits|
      invariant 0 <= j <= |hits|
      invariant all' == KeepFirst(before + stamped[..j], UrlOf)
      invariant seen' == KeySet(all', UrlOf)
    {
      var r := StampOne(hits[j], idx);
      assert before + stamped[..j + 1] == (before + stamped[..j]) + [r];
      KeepFirstSnoc(before + stamped[..j], r, UrlOf);
      KeySetSnoc(all', r, UrlOf);
      if hits[j].url != "" && hits[j].url !in seen' {
        all' := all' + [r];
        seen' := seen' + {hits[j].url};
      }
      j := j + 1;
    }
    assert stamped[..|hits|] == stamped;
  }

  /** The loop of `researcher_node`, step by step with its `seen_urls` set,
      given the outcomes its searches produce (`outs`); it computes exactly
      `Gather`. */
  method CollectResults(plan: seq<string>, search: string -> SearchOutcome, ghost outs: seq<SearchOutcome>) returns (g: Gathered)
    requires |outs| == |plan| && forall i :: 0 <= i < |plan| ==> outs[i] == search(plan[i])
    ensures g == Gather(outs)
  {
    var all: seq<SearchResult> := [];
    var seen: set<string> := {};
    var idx := 0;
    while idx < |plan|
      invariant 0 <= idx <= |plan|
      invariant FirstConfigError(outs[..idx]).None?
      invariant all == KeepFirst(Stamped(outs[..idx]), UrlOf)
      invariant seen == KeySet(all, UrlOf)
    {
      var o := search(plan[idx]);
      assert o == outs[idx];
      PrefixStep(outs, idx);
      if IsConfigError(o) {
        FirstConfigErrorPrefix(outs, idx + 1);
        g := Aborted(o.error);
        return;
      }
      if o.Hits? {
        assert StepHits(o, idx) == Stamp(o.hits, idx);
        all, seen := AddHits(Stamped(outs[..idx]), all, seen, o.hits, idx);
      } else {
        assert StepHits(o, idx) == [];
        assert Stamped(outs[..idx]) + [] == Stamped(outs[..idx]);
        assert Stamped(outs[..idx + 1]) == Stamped(outs[..idx]);
      }
      assert FirstConfigError(outs[..idx + 1]).None?;
      idx := idx + 1;
    }
    assert outs[..idx] == outs;
    g := Collected(all);
  }

  /** Extending the prefix by one step extends both summaries by that step. */
  lemma PrefixStep(outs: seq<SearchOutcome>, idx: nat)
    requires idx < |outs|
    ensures Stamped(outs[..idx + 1]) == Stamped(outs[..idx]) + StepHits(outs[idx], idx)
    ensures FirstConfigError(outs[..idx + 1])
      == if FirstConfigError(outs[..idx]).Some? then FirstConfigError(outs[..idx])
         else if IsConfigError(outs[idx]) then Some(outs[idx].error) else None
  {
    assert outs[..idx + 1][..idx] == outs[..idx];
  }

  /** A configuration error in a prefix is the first one of the whole sequence. */
  lemma {:induction false} FirstConfigErrorPrefix(outs: seq<SearchOutcome>, n: nat)
    requires n <= |outs|
    requires FirstConfigError(outs[..n]).Some?
    ensures FirstConfigError(outs) == FirstConfigError(outs[..n])
    decreases |outs| - n
  {
    if n < |outs| {
      var p := outs[..|outs| - 1];
      assert p[..n] == outs[..n];
      FirstConfigErrorPrefix(p, n);
    } else {
      assert outs[..n] == outs;
    }
  }

  /** Any step with a configuration error makes some error the first. */
  lemma {:induction false} FirstConfigErrorExists(outs: seq<SearchOutcome>, i: int)
    requires 0 <= i < |outs| && IsConfigError(outs[i])
    ensures FirstConfigError(outs).Some?
    decreases |outs|
  {
    if i < |outs| - 1 {
      FirstConfigErrorExists(outs[..|outs| - 1], i);
    }
  }

  /** The stamped hits of the first `k` steps come first, and everything
      after them carries a step index of at least `k`. */
  lemma {:induction false} StampedPrefix(outs: seq<SearchOutcome>, k: nat)
    requires k <= |outs|
    ensures |Stamped(outs[..k])| <= |Stamped(outs)|
    ensures Stamped(outs)[..|Stamped(outs[..k])|] == Stamped(outs[..k])
    ensures forall j :: |Stamped(outs[..k])| <= j < |Stamped(outs)| ==> Stamped(outs)[j].stepIndex >= k
    decreases |outs| - k
  {
    if k == |outs| {
      assert outs[..k] == outs;
    } else {
      var p := outs[..|outs| - 1];
      assert p[..k] == outs[..k];
      StampedPrefix(p, k);
      var tail := StepHits(outs[|outs| - 1], |outs| - 1);
      assert Stamped(outs) == Stamped(p) + tail;
      forall j | |Stamped(p)| <= j < |Stamped(outs)| ensures Stamped(outs)[j].stepIndex >= k {
        assert Stamped(outs)[j] == tail[j - |Stamped(p)|];
      }
    }
  }

  /** Each stamped element is a hit of the step whose index it carries. */
  lemma {:induction false} StampedProvenance(outs: seq<SearchOutcome>, j: int)
    requires 0 <= j < |Stamped(outs)|
    ensures var r := Stamped(outs)[j];
      && r.stepIndex < |outs|
      && outs[r.stepIndex].Hits?
      && Hit(r.title, r.url, r.snippet) in outs[r.stepIndex].hits
    decreases |outs|
  {
    var p := outs[..|outs| - 1];
    if j < |Stamped(p)| {
      StampedProvenance(p, j);
      assert Stamped(outs)[j] == Stamped(p)[j];
    } else {
      var o := outs[|outs| - 1];
      var m := j - |Stamped(p)|;
      assert Stamped(outs)[j] == Stamp(o.hits, |outs| - 1)[m];
      assert o.hits[m] in o.hits;
    }
  }

  /** Each hit of step `i` appears stamped with `i`. */
  lemma HitStamped(outs: seq<SearchOutcome>, i: int, m: int) returns (j: int)
    requires 0 <= i < |outs| && outs[i].Hits? && 0 <= m < |outs[i].hits|
    ensures 0 <= j < |Stamped(outs)| && Stamped(outs)[j] == StampOne(outs[i].hits[m], i)
  {
    var q := outs[..i + 1];
    assert q[..i] == outs[..i];
    StampedPrefix(outs, i + 1);
    j := |Stamped(outs[..i])| + m;
    assert Stamped(q)[j] == Stamp(outs[i].hits, i)[m];
  }

  /** Step indices never decrease along the stamped sequence. */
  lemma {:induction false} StampedSorted(outs: seq<SearchOutcome>)
    ensures SortedBy(Stamped(outs), StepOf)
    decreases |outs|
  {
    if outs != [] {
      var p := outs[..|outs| - 1];
      StampedSorted(p);
      var st := Stamped(outs);
      var tail := StepHits(outs[|outs| - 1], |outs| - 1);
      forall a, b | 0 <= a < b < |st| ensures StepOf(st[a]) <= StepOf(st[b]) {
        if b < |Stamped(p)| {
          assert st[a] == Stamped(p)[a] && st[b] == Stamped(p)[b];
        } else {
          assert st[b] == tail[b - |Stamped(p)|];
          if a < |Stamped(p)| {
            assert st[a] == Stamped(p)[a];
            StampedProvenance(p, a);
          } else {
            assert st[a] == tail[a - |Stamped(p)|];
          }
        }
      }
    }
  }

  /** What the stage keeps, when no step had a configuration error: no
      empty and no repeated URL; step indices in order; every result a hit
      of the step it is stamped with; every non-empty URL any step returned
      is kept, stamped with the first step that returned it. */
  lemma CollectedResultsSpec(outs: seq<SearchOutcome>)
    requires FirstConfigError(outs).None?
    ensures var results := Gather(outs).results;
      && UniqueKeys(results, UrlOf)
      && SortedBy(results, StepOf)
      && |results| <= |Stamped(outs)|
      && (forall k :: 0 <= k < |results| ==>
            results[k].stepIndex < |outs| && outs[results[k].stepIndex].Hits?
            && Hit(results[k].title, results[k].url, results[k].snippet) in outs[results[k].stepIndex].hits)
  {
    var st := Stamped(outs);
    var results := KeepFirst(st, UrlOf);
    KeepFirstSpec(st, UrlOf);
    StampedSorted(outs);
    KeepFirstSorted(st, UrlOf, StepOf);
    forall k | 0 <= k < |results|
      ensures results[k].stepIndex < |outs| && outs[results[k].stepIndex].Hits?
        && Hit(results[k].title, results[k].url, results[k].snippet) in outs[results[k].stepIndex].hits
    {
      var j := KeepFirstOrigin(st, UrlOf, k);
      StampedProvenance(outs, j);
    }
  }

  /** A URL returned by step `i` is kept, and its result is stamped with a
      step no later than `i`; with the provenance above, the stamp is the
      first step that returned the URL. */
  lemma FirstStepKept(outs: seq<SearchOutcome>, i: int, m: int) returns (k: int)
    requires FirstConfigError(outs).None?
    requires 0 <= i < |outs| && outs[i].Hits? && 0 <= m < |outs[i].hits|
    requires outs[i].hits[m].url != ""
    ensures var results := Gather(outs).results;
      0 <= k < |results| && results[k].url == outs[i].hits[m].url && results[k].stepIndex <= i
  {
    var st := Stamped(outs);
    var results := KeepFirst(st, UrlOf);
    var url := outs[i].hits[m].url;
    var p := HitStamped(outs, i, m);
    KeySetMember(st, UrlOf, p);
    KeepFirstSpec(st, UrlOf);
    assert url in KeySet(results, UrlOf);
    k :| 0 <= k < |results| && UrlOf(results[k]) != "" && UrlOf(results[k]) == url;
    var j := KeepFirstOrigin(st, UrlOf, k);
    assert IsFirst(st, UrlOf, j);
    assert UrlOf(st[p]) == UrlOf(st[j]);
    assert j <= p;
    StampedSorted(outs);
    if p > j {
      assert StepOf(st[j]) <= StepOf(st[p]);
    }
  }

  /** A configuration error in any step empties the results, whatever the
      other steps found. */
  lemma ConfigErrorDiscards(s: Record, search: string -> SearchOutcome, i: int)
    requires 0 <= i < |s.plan| && IsConfigError(search(s.plan[i]))
    ensures ResearcherNode(s, search).results == Some([])
    ensures ResearcherNode(s, search).messages[0].content[..|Warning|] == Warning
  {
    var outs := StepOutcomes(s.plan, search);
    assert outs[i] == search(s.plan[i]);
    FirstConfigErrorExists(outs, i);
  }

  /** A step whose search raised anything other than `ValueError`
      contributes no results. */
  lemma {:induction false} SkipStampsNothing(outs: seq<SearchOutcome>, i: int)
    requires 0 <= i < |outs| && outs[i].Raised?
    ensures Stamped(outs) == Stamped(outs[i := Hits([])])
    decreases |outs|
  {
    var outs' := outs[i := Hits([])];
    var p := outs[..|outs| - 1];
    if i < |outs| - 1 {
      assert outs'[..|outs| - 1] == p[i := Hits([])];
      SkipStampsNothing(p, i);
    } else {
      assert outs'[..|outs| - 1] == p;
      assert Stamp([], i) == [];
    }
  }

  /** ... and is not a configuration error. */
  lemma {:induction false} SkipIsNoConfigError(outs: seq<SearchOutcome>, i: int)
    requires 0 <= i < |outs| && outs[i].Raised? && outs[i].kind != ValueError
    ensures FirstConfigError(outs) == FirstConfigError(outs[i := Hits([])])
    decreases |outs|
  {
    var outs' := outs[i := Hits([])];
    var p := outs[..|outs| - 1];
    if i < |outs| - 1 {
      assert outs'[..|outs| - 1] == p[i := Hits([])];
      SkipIsNoConfigError(p, i);
    } else {
      assert outs'[..|outs| - 1] == p;
    }
  }

  /** So a step whose search failed other than by configuration counts as
      a step that found nothing: the loop skips it and continues. */
  lemma SkipIsEmpty(outs: seq<SearchOutcome>, i: int)
    requires 0 <= i < |outs| && outs[i].Raised? && outs[i].kind != ValueError
    ensures Gather(outs) == Gather(outs[i := Hits([])])
  {
    SkipStampsNothing(outs, i);
    SkipIsNoConfigError(outs, i);
  }

  /** Steps that all find nothing stamp nothing and raise nothing. */
  lemma {:induction false} NoHitsGatherNothing(outs: seq<SearchOutcome>)
    requires forall i :: 0 <= i < |outs| ==> outs[i] == Hits([])
    ensures Stamped(outs) == [] && FirstConfigError(outs).None?
    decreases |outs|
  {
    if outs != [] {
      NoHitsGatherNothing(outs[..|outs| - 1]);
      assert Stamp([], |outs| - 1) == [];
    }
  }

  /** A search that finds nothing for any step leaves the results empty. */
  lemma NothingFound(s: Record, search: string -> SearchOutcome)
    requires forall q :: search(q) == Hits([])
    ensures ResearcherNode(s, search).results == Some([])
  {
    var outs := StepOutcomes(s.plan, search);
    NoHitsGatherNothing(outs);
    assert KeepFirst(Stamped(outs), UrlOf) == [];
  }

  /** The results the stage returns have no empty and no repeated URL, in
      non-decreasing step order; an empty plan makes no search at all. */
  lemma ResearcherNodeResults(s: Record, search: string -> SearchOutcome, other: string -> SearchOutcome)
    ensures UniqueKeys(ResearcherNode(s, search).results.value, UrlOf)
    ensures SortedBy(ResearcherNode(s, search).results.value, StepOf)
    ensures s.plan == [] ==> ResearcherNode(s, search) == ResearcherNode(s, other)
    ensures FirstConfigError(StepOutcomes(s.plan, search)).None? ==>
      ResearcherNode(s, search).results == Some(Gather(StepOutcomes(s.plan, search)).results)
  {
    var outs := StepOutcomes(s.plan, search);
    if s.plan != [] && FirstConfigError(outs).None? {
      CollectedResultsSpec(outs);
    }
  }
}
