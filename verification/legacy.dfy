/** The older single-file pipeline (multi_agent_research.py): the same
    four stages and graph, with Claude and SerpAPI fixed, no
    deduplication, a case-sensitive reviewer, and node failures that
    propagate out of the run instead of degrading to a message. */
module Legacy {
  import opened Wrappers
  import opened Text
  import opened Json
  import opened Llm
  import opened Search
  import opened State
  import opened Pipeline
  import opened PlannerAgent
  import opened ResearcherAgent
  import opened WriterAgent
  import opened ReviewerAgent
  import Workflow

  /** The models `get_llm` accepts; anything else becomes the first. */
  const ModelFallbacks := ["claude-sonnet-4-5-20250929", "claude-sonnet-4-20250514", "claude-3-7-sonnet-20250219"]
  /** The per-step count `researcher_node` passes to `google_search`. */
  const StepResults := 5
  /** SerpAPI is never asked for more than this many results. */
  const GoogleCap := 10
  /** The bounds `main` clamps `--results` into. */
  const CliMin := 1
  const CliMax := 8

  /** The model is called by model name; the API key is fixed at start-up. */
  type LegacyComplete = (string, Prompt) -> Completion

  /** What a run consults: the `CLAUDE_MODEL` setting, the SerpAPI key, the
      model, `json.loads`, `json.dumps` of a plan, and the network. */
  datatype LegacyContext = LegacyContext(
    model: string,
    serpApiKey: string,
    complete: LegacyComplete,
    parseJson: JsonDecoder,
    dumps: seq<string> -> string,
    net: Network)

  /** `get_llm(model_name)`: the model actually used. */
  function SelectModel(model: string): (r: string)
    ensures r in ModelFallbacks
    ensures model in ModelFallbacks ==> r == model
    ensures model !in ModelFallbacks ==> r == ModelFallbacks[0]
  {
    if model in ModelFallbacks then model else ModelFallbacks[0]
  }

  function GoogleRequest(query: string, numResults: int, key: string): Request {
    Request(SerpApi, query, Min(numResults, GoogleCap), key)
  }

  /** `google_search(query, num_results)`: up to three attempts, where any
      exception is retried, and the first `num_results` organic results. */
  function GoogleSearch(query: string, numResults: int, key: string, net: Network): (r: seq<Hit>)
    ensures numResults >= 0 ==> |r| <= numResults
  {
    Attempts(GoogleRequest(query, numResults, key), net, 0, numResults, LinkFields, true).hits
  }

  /** The request never asks for more than ten results. */
  lemma GoogleRequestCapped(query: string, numResults: int, key: string)
    ensures GoogleRequest(query, numResults, key).count <= GoogleCap
    ensures numResults <= GoogleCap ==> GoogleRequest(query, numResults, key).count == numResults
  {
  }

  /** Three failed attempts, of whatever kind, give no results. */
  lemma GoogleSearchGivesUp(query: string, numResults: int, key: string, net: Network)
    requires forall a :: 0 <= a < MaxAttempts ==> !net(GoogleRequest(query, numResults, key), a).Answered?
    ensures GoogleSearch(query, numResults, key, net) == []
  {
    var req := GoogleRequest(query, numResults, key);
    forall a | 0 <= a < MaxAttempts
      ensures net(req, a).RequestFailed? || net(req, a).Crashed?
    {
      assert !net(req, a).Answered?;
    }
    AttemptsExhausted(req, net, 0, numResults, LinkFields, true);
  }

  /** The first answer is used, cut to `numResults` and normalised with
      SerpAPI's field names. */
  lemma GoogleSearchFirstAnswer(query: string, numResults: int, key: string, net: Network, answered: nat)
    requires answered < MaxAttempts
    requires net(GoogleRequest(query, numResults, key), answered).Answered?
    requires forall a :: 0 <= a < answered ==> !net(GoogleRequest(query, numResults, key), a).Answered?
    ensures GoogleSearch(query, numResults, key, net)
      == NormalizeAll(PyTake(net(GoogleRequest(query, numResults, key), answered).items, numResults), LinkFields)
  {
    var req := GoogleRequest(query, numResults, key);
    forall a | 0 <= a < answered
      ensures net(req, a).RequestFailed? || net(req, a).Crashed?
    {
      assert !net(req, a).Answered?;
    }
    AttemptsFirstAnswer(req, net, 0, answered, numResults, LinkFields, true);
  }

  /** The legacy plan: a JSON list of 2-5 items, else the query alone;
      there is no line fallback. */
  function LegacyPlan(query: string, response: string, parsed: JsonOutcome): (plan: seq<string>)
    ensures 1 <= |plan| <= MaxSteps
  {
    match parsed
    case JsonArray(items) =>
      if MinSteps <= |items| <= MaxSteps then StringifyAll(items) else [query]
    case _ => [query]
  }

  /** Both planners read a JSON reply the same way; on a reply that is not
      JSON the legacy planner falls back to the query even when the reply
      has usable lines. */
  lemma LegacyPlanVersusPlanner(query: string, response: string, parsed: JsonOutcome)
    ensures !parsed.NotJson? ==> LegacyPlan(query, response, parsed) == PlanFromReply(query, response, parsed)
    ensures parsed.NotJson? ==> LegacyPlan(query, response, parsed) == [query]
  {
  }

  /** `planner_node(state)`; a failed model call propagates. */
  function LegacyPlanner(s: Record, ctx: LegacyContext): (r: Result<Update, string>)
    ensures r.Success? ==> OnlyPlan(r.value) && |r.value.messages| == 1 && 1 <= |r.value.plan.value| <= MaxSteps
    ensures r.Failure? <==> ctx.complete(SelectModel(ctx.model), PlanPrompt(s.query)).Raised?
  {
    match ctx.complete(SelectModel(ctx.model), PlanPrompt(s.query))
    case Raised(e) => Failure(e)
    case Reply(text) =>
      var plan := LegacyPlan(s.query, text, ctx.parseJson(text));
      Success(PlanUpdate(plan, "Research plan: " + ctx.dumps(plan)))
  }

  /** The search each plan step runs. */
  function LegacySearch(ctx: LegacyContext, perStep: int): string -> SearchOutcome {
    q => Hits(GoogleSearch(q, perStep, ctx.serpApiKey, ctx.net))
  }

  /** `researcher_node(state)` with the per-step count as a parameter:
      every step's results, stamped and concatenated. */
  function LegacyResearcher(s: Record, ctx: LegacyContext, perStep: int): (u: Update)
    ensures OnlyResults(u) && |u.messages| == 1
  {
    var results := Stamped(StepOutcomes(s.plan, LegacySearch(ctx, perStep)));
    ResultsUpdate(results, "Found " + NatToString(|results|) + " total results")
  }

  /** How many hits the steps returned in all. */
  function TotalHits(outs: seq<SearchOutcome>): nat
    decreases |outs|
  {
    if outs == [] then 0
    else TotalHits(outs[..|outs| - 1]) + (if outs[|outs| - 1].Hits? then |outs[|outs| - 1].hits| else 0)
  }

  /** Stamping keeps every hit: one result per hit. */
  lemma {:induction false} StampedLength(outs: seq<SearchOutcome>)
    ensures |Stamped(outs)| == TotalHits(outs)
    decreases |outs|
  {
    if outs != [] {
      StampedLength(outs[..|outs| - 1]);
    }
  }

  /** With at most `k` hits per step there are at most `k` per step in all. */
  lemma {:induction false} TotalHitsBound(outs: seq<SearchOutcome>, k: nat)
    requires forall i :: 0 <= i < |outs| && outs[i].Hits? ==> |outs[i].hits| <= k
    ensures TotalHits(outs) <= |outs| * k
    decreases |outs|
  {
    if outs != [] {
      var p := outs[..|outs| - 1];
      TotalHitsBound(p, k);
      assert (|p| + 1) * k == |p| * k + k;
    }
  }

  /** The legacy researcher keeps every hit of every step, duplicates
      included: the results are exactly as many as the hits, each comes
      from the step it is stamped with, and every hit appears. */
  lemma LegacyResultsAreAllHits(s: Record, ctx: LegacyContext, perStep: int, i: int, m: int) returns (j: int)
    requires 0 <= i < |s.plan|
    requires 0 <= m < |GoogleSearch(s.plan[i], perStep, ctx.serpApiKey, ctx.net)|
    ensures var outs := StepOutcomes(s.plan, LegacySearch(ctx, perStep));
      var results := LegacyResearcher(s, ctx, perStep).results.value;
      && |results| == TotalHits(outs)
      && 0 <= j < |results|
      && results[j] == StampOne(GoogleSearch(s.plan[i], perStep, ctx.serpApiKey, ctx.net)[m], i)
  {
    var outs := StepOutcomes(s.plan, LegacySearch(ctx, perStep));
    StampedLength(outs);
    assert outs[i] == Hits(GoogleSearch(s.plan[i], perStep, ctx.serpApiKey, ctx.net));
    j := HitStamped(outs, i, m);
  }

  /** Two steps that find the same page give two results with its URL. */
  lemma LegacyKeepsDuplicates(s: Record, ctx: LegacyContext, perStep: int, i: int, m: int, i': int, m': int)
    requires 0 <= i < i' < |s.plan|
    requires 0 <= m < |GoogleSearch(s.plan[i], perStep, ctx.serpApiKey, ctx.net)|
    requires 0 <= m' < |GoogleSearch(s.plan[i'], perStep, ctx.serpApiKey, ctx.net)|
    requires GoogleSearch(s.plan[i], perStep, ctx.serpApiKey, ctx.net)[m].url
          == GoogleSearch(s.plan[i'], perStep, ctx.serpApiKey, ctx.net)[m'].url
    ensures var results := LegacyResearcher(s, ctx, perStep).results.value;
      exists j, j' :: 0 <= j < j' < |results| && results[j].url == results[j'].url
  {
    var results := LegacyResearcher(s, ctx, perStep).results.value;
    var j := LegacyResultsAreAllHits(s, ctx, perStep, i, m);
    var j' := LegacyResultsAreAllHits(s, ctx, perStep, i', m');
    assert results[j].stepIndex == i && results[j'].stepIndex == i';
    if j < j' {
      assert 0 <= j < j' < |results| && results[j].url == results[j'].url;
    } else {
      assert 0 <= j' < j < |results| && results[j'].url == results[j].url;
    }
  }

  /** No step contributes more than the per-step count. */
  lemma PerStepBound(s: Record, ctx: LegacyContext, perStep: nat)
    ensures |LegacyResearcher(s, ctx, perStep).results.value| <= |s.plan| * perStep
  {
    var outs := StepOutcomes(s.plan, LegacySearch(ctx, perStep));
    forall i | 0 <= i < |outs| && outs[i].Hits? ensures |outs[i].hits| <= perStep {
      assert outs[i] == Hits(GoogleSearch(s.plan[i], perStep, ctx.serpApiKey, ctx.net));
    }
    StampedLength(outs);
    TotalHitsBound(outs, perStep);
  }

  /** `writer_node(state)`: the reply is the draft as it stands; a failed
      model call propagates. */
  function LegacyWriter(s: Record, ctx: LegacyContext): (r: Result<Update, string>)
    ensures r.Success? ==> OnlyDraft(r.value) && |r.value.messages| == 1
    ensures r.Failure? <==> ctx.complete(SelectModel(ctx.model), WritePrompt(s.query, Listing(s.results))).Raised?
  {
    match ctx.complete(SelectModel(ctx.model), WritePrompt(s.query, Listing(s.results)))
    case Raised(e) => Failure(e)
    case Reply(text) => Success(DraftUpdate(text, References(s.results), "Draft complete"))
  }

  /** The draft is the unstripped reply, and the references are the
      distinct non-empty URLs of the first twenty results. */
  lemma LegacyWriterOutput(s: Record, ctx: LegacyContext)
    requires ctx.complete(SelectModel(ctx.model), WritePrompt(s.query, Listing(s.results))).Reply?
    ensures var u := LegacyWriter(s, ctx).value;
      var refs := u.references.value;
      && u.draft == Some(ctx.complete(SelectModel(ctx.model), WritePrompt(s.query, Listing(s.results))).text)
      && (forall i, j :: 0 <= i < j < |refs| ==> refs[i] != refs[j])
      && (forall i :: 0 <= i < |refs| ==> refs[i] != "")
      && (set u | u in refs) == (set i | 0 <= i < Min(MaxSources, |s.results|) && s.results[i].url != "" :: s.results[i].url)
  {
    ReferencesSpec(s.results);
  }

  /** `reviewer_node(state)`: the marker is matched case-sensitively and
      there is no check for an empty draft; a failed call propagates. */
  function LegacyReviewer(s: Record, ctx: LegacyContext): (r: Result<Update, string>)
    ensures r.Success? ==> OnlyVerdict(r.value) && |r.value.messages| == 1
    ensures r.Success? && r.value.revisedOnce.Some? ==> r.value.revisedOnce.value && !s.revisedOnce
    ensures r.Failure? <==> ctx.complete(SelectModel(ctx.model), ReviewPrompt(s.draft)).Raised?
  {
    match ctx.complete(SelectModel(ctx.model), ReviewPrompt(s.draft))
    case Raised(e) => Failure(e)
    case Reply(review) =>
      if Contains(review, RevisionMarker) && !s.revisedOnce then
        Success(RequestRevision("Revision requested: " + review))
      else Success(Finalize(s.draft, "Research complete"))
  }

  /** The decision table: a revision exactly when the reply contains the
      marker as written and none was requested before; otherwise the draft,
      even an empty one, becomes final. */
  lemma LegacyReviewerDecision(s: Record, ctx: LegacyContext)
    requires ctx.complete(SelectModel(ctx.model), ReviewPrompt(s.draft)).Reply?
    ensures var u := LegacyReviewer(s, ctx).value;
      var review := ctx.complete(SelectModel(ctx.model), ReviewPrompt(s.draft)).text;
      && (u.revisedOnce.Some? <==> Contains(review, RevisionMarker) && !s.revisedOnce)
      && (u.final.Some? <==> !u.revisedOnce.Some?)
      && (u.final.Some? ==> u.final.value == s.draft)
  {
  }

  /** A lower-case marker asks the current reviewer for a revision but not
      the legacy one. */
  lemma LegacyReviewerCaseSensitive()
    ensures NeedsRevision("needs_revision")
    ensures !Contains("needs_revision", RevisionMarker)
  {
    assert AsciiUpper("needs_revision") == RevisionMarker;
    assert OccursAt("needs_revision", "needs_revision", 0);
    NeedsRevisionAnyCase("needs_revision", "needs_revision");
    forall i ensures !OccursAt("needs_revision", RevisionMarker, i) {
      if i == 0 {
        assert "needs_revision"[0..|RevisionMarker|][0] != RevisionMarker[0];
      }
    }
  }

  /** The conditional edge of `build_graph`: back to the writer while there
      is no final text and no revision was requested. */
  predicate LegacyRoute(s: Record) {
    s.final == "" && !s.revisedOnce
  }

  /** `should_revise`, defined but never wired into the graph. */
  predicate UnusedShouldRevise(s: Record) {
    if s.final != "" then false
    else if s.revisedOnce then true
    else s.draft == ""
  }

  /** The wired edge and the unused function agree exactly when there is a
      final text, or there is neither a draft nor a revision request. */
  lemma RoutesAgreeOnlyIf(s: Record)
    ensures LegacyRoute(s) == UnusedShouldRevise(s) <==> (s.final != "" || (!s.revisedOnce && s.draft == ""))
  {
  }

  /** After the reviewer the run turns back to the writer exactly when the
      reviewer approved an empty draft. */
  lemma LegacyRouteAfterReview(s: Record, ctx: LegacyContext)
    requires LegacyReviewer(s, ctx).Success?
    ensures LegacyRoute(Merge(s, LegacyReviewer(s, ctx).value))
      <==> LegacyReviewer(s, ctx).value.final.Some? && s.draft == "" && !s.revisedOnce
  {
  }

  function LegacyStep(ctx: LegacyContext, perStep: int): (Node, Record) -> Result<Update, string> {
    (n: Node, s: Record) =>
      match n
      case Planner => LegacyPlanner(s, ctx)
      case Researcher => Success(LegacyResearcher(s, ctx, perStep))
      case Writer => LegacyWriter(s, ctx)
      case Reviewer => LegacyReviewer(s, ctx)
  }

  /** The compiled graph streamed from the initial state, within the
      runtime's step budget. */
  function LegacyRun(query: string, ctx: LegacyContext, perStep: int): Halt {
    Drive(BuildWorkflow(), LegacyStep(ctx, perStep), LegacyRoute, Planner,
          Trace(Initial(query), [], []), RecursionLimit)
  }

  /** `max(1, min(args.results, 8))`. */
  function CliResults(resultsArg: int): (n: int)
    ensures CliMin <= n <= CliMax
    ensures CliMin <= resultsArg <= CliMax ==> n == resultsArg
  {
    Clamp(resultsArg, CliMin, CliMax)
  }

  /** `--model`, when given, replaces the configured model. */
  function WithModel(ctx: LegacyContext, modelArg: Option<string>): LegacyContext {
    if modelArg.Some? && modelArg.value != "" then ctx.(model := modelArg.value) else ctx
  }

  /** How `main` ends: the final state, or exit status 1 after an
      exception (a node's, or the runtime's recursion error). */
  function Outcome(h: Halt): Result<Record, Workflow.RunError> {
    match h
    case Finished(t) => Success(t.state)
    case Crashed(e, _) => Failure(Workflow.NodeRaised(e))
    case OutOfFuel(_) => Failure(Workflow.RecursionLimitReached)
  }

  /** `main()` as written: `--results` is clamped and then dropped, the
      researcher always asks for five results per step. */
  function LegacyMain(query: string, resultsArg: int, modelArg: Option<string>, ctx: LegacyContext): Result<Record, Workflow.RunError> {
    Outcome(LegacyRun(query, WithModel(ctx, modelArg), StepResults))
  }

  /** `main()` with the clamped `--results` passed on to the researcher. */
  function LegacyMainIntended(query: string, resultsArg: int, modelArg: Option<string>, ctx: LegacyContext): Result<Record, Workflow.RunError> {
    Outcome(LegacyRun(query, WithModel(ctx, modelArg), CliResults(resultsArg)))
  }

  /** As written, `--results 1` still gives a one-step plan five results
      when SerpAPI answers with five. */
  lemma ResultsFlagIgnored(s: Record, ctx: LegacyContext, items: seq<RawItem>)
    requires |s.plan| == 1 && |items| == StepResults
    requires forall r, a :: ctx.net(r, a) == Answered(items)
    ensures |LegacyResearcher(s, ctx, StepResults).results.value| == StepResults
    ensures CliResults(1) == 1
  {
    var outs := StepOutcomes(s.plan, LegacySearch(ctx, StepResults));
    GoogleSearchFirstAnswer(s.plan[0], StepResults, ctx.serpApiKey, ctx.net, 0);
    assert outs[0] == Hits(GoogleSearch(s.plan[0], StepResults, ctx.serpApiKey, ctx.net));
    StampedLength(outs);
    assert outs[..0] == [];
  }

  /** With the clamped `--results` value passed on, as `main` evidently
      intends, no step contributes more than that value, so `--results 1`
      gives a one-step plan at most one result. */
  lemma IntendedResultsBound(s: Record, ctx: LegacyContext, resultsArg: int)
    ensures |LegacyResearcher(s, ctx, CliResults(resultsArg)).results.value| <= |s.plan| * CliResults(resultsArg)
    ensures |LegacyResearcher(s, ctx, CliResults(resultsArg)).results.value| <= |s.plan| * CliMax
    ensures resultsArg == 1 && |s.plan| == 1 ==> |LegacyResearcher(s, ctx, CliResults(resultsArg)).results.value| <= 1
  {
    var n := CliResults(resultsArg);
    PerStepBound(s, ctx, n);
    ScaledBound(|LegacyResearcher(s, ctx, n).results.value|, |s.plan|, n, CliMax);
  }

  /** A bound of `n` per step, for `m` steps, stays under `m * cap`. */
  lemma ScaledBound(len: int, m: nat, n: nat, cap: nat)
    requires len <= m * n && n <= cap
    ensures len <= m * cap
    ensures m == 1 && n == 1 ==> len <= 1
  {
  }

  /** `main()` as written: the outcome does not depend on `--results` at
      all. */
  lemma LegacyMainIgnoresResults(query: string, a: int, b: int, modelArg: Option<string>, ctx: LegacyContext)
    ensures LegacyMain(query, a, modelArg, ctx) == LegacyMain(query, b, modelArg, ctx)
  {
  }

  /** The state invariant of a run whose model always replies with empty
      text. */
  predicate EmptyLoop(s: Record) {
    s.final == "" && !s.revisedOnce && s.draft == ""
  }

  lemma EmptyRepliesKeepLoop(ctx: LegacyContext, perStep: int, n: Node, s: Record)
    requires forall m, p :: ctx.complete(m, p) == Reply("")
    requires EmptyLoop(s)
    ensures LegacyStep(ctx, perStep)(n, s).Success?
    ensures EmptyLoop(Merge(s, LegacyStep(ctx, perStep)(n, s).value))
  {
    match n
    case Planner =>
      assert ctx.complete(SelectModel(ctx.model), PlanPrompt(s.query)) == Reply("");
      assert LegacyStep(ctx, perStep)(n, s) == LegacyPlanner(s, ctx);
    case Researcher =>
      assert LegacyStep(ctx, perStep)(n, s) == Success(LegacyResearcher(s, ctx, perStep));
    case Writer =>
      assert ctx.complete(SelectModel(ctx.model), WritePrompt(s.query, Listing(s.results))) == Reply("");
      assert LegacyStep(ctx, perStep)(n, s) == LegacyWriter(s, ctx);
    case Reviewer =>
      assert ctx.complete(SelectModel(ctx.model), ReviewPrompt(s.draft)) == Reply("");
      assert !Contains("", RevisionMarker);
      assert LegacyStep(ctx, perStep)(n, s) == LegacyReviewer(s, ctx);
  }

  /** A model that never fails makes every legacy node succeed. */
  lemma RepliesNeverRaise(ctx: LegacyContext, perStep: int, n: Node, s: Record)
    requires forall m, p :: ctx.complete(m, p).Reply?
    ensures LegacyStep(ctx, perStep)(n, s).Success?
  {
    match n
    case Planner =>
      assert ctx.complete(SelectModel(ctx.model), PlanPrompt(s.query)).Reply?;
      assert LegacyStep(ctx, perStep)(n, s) == LegacyPlanner(s, ctx);
    case Researcher =>
      assert LegacyStep(ctx, perStep)(n, s) == Success(LegacyResearcher(s, ctx, perStep));
    case Writer =>
      assert ctx.complete(SelectModel(ctx.model), WritePrompt(s.query, Listing(s.results))).Reply?;
      assert LegacyStep(ctx, perStep)(n, s) == LegacyWriter(s, ctx);
    case Reviewer =>
      assert ctx.complete(SelectModel(ctx.model), ReviewPrompt(s.draft)).Reply?;
      assert LegacyStep(ctx, perStep)(n, s) == LegacyReviewer(s, ctx);
  }

  /** A model that approves an empty draft keeps the run going between the
      writer and the reviewer until the runtime's recursion limit stops it,
      and `main` exits with an error. */
  lemma EmptyDraftLoops(query: string, resultsArg: int, ctx: LegacyContext)
    requires forall m, p :: ctx.complete(m, p) == Reply("")
    ensures LegacyRun(query, ctx, StepResults).OutOfFuel?
    ensures LegacyMain(query, resultsArg, None, ctx) == Failure(Workflow.RecursionLimitReached)
  {
    var step := LegacyStep(ctx, StepResults);
    forall n, s | EmptyLoop(s)
      ensures step(n, s).Success? && EmptyLoop(Merge(s, step(n, s).value))
    {
      EmptyRepliesKeepLoop(ctx, StepResults, n, s);
    }
    var g := BuildWorkflow();
    forall n: Node ensures n in g.edges || n == g.branchFrom {
    }
    NeverFinishes(g, step, LegacyRoute, EmptyLoop, Planner, Trace(Initial(query), [], []), RecursionLimit);
  }

  /** With a model that never fails and never writes an empty draft, the
      run ends after one pass through the four nodes: the writer never runs
      again, and the run ends without final text exactly when the reviewer
      asked for a revision. */
  lemma NonEmptyDraftEndsRun(query: string, ctx: LegacyContext, perStep: int)
    requires forall m, p :: ctx.complete(m, p).Reply?
    requires forall m, q, srcs :: ctx.complete(m, WritePrompt(q, srcs)).text != ""
    ensures var h := LegacyRun(query, ctx, perStep);
      && h.Finished?
      && h.trace.visited == [Planner, Researcher, Writer, Reviewer]
      && h.trace.state.draft != ""
      && (h.trace.state.final == "" <==> h.trace.state.revisedOnce)
  {
    var step := LegacyStep(ctx, perStep);
    forall n, s ensures step(n, s).Success? {
      RepliesNeverRaise(ctx, perStep, n, s);
    }
    var t0 := Trace(Initial(query), [], []);
    assert LegacyRun(query, ctx, perStep) == Drive(BuildWorkflow(), step, LegacyRoute, Planner, t0, RecursionLimit);
    MainLine(step, LegacyRoute, t0, RecursionLimit);
    var t1 := After(step, Planner, t0);
    var t2 := After(step, Researcher, t1);
    var t3 := After(step, Writer, t2);
    var t4 := After(step, Reviewer, t3);
    assert step(Planner, t0.state) == LegacyPlanner(t0.state, ctx);
    assert t1.state.final == "" && !t1.state.revisedOnce;
    assert step(Researcher, t1.state) == Success(LegacyResearcher(t1.state, ctx, perStep));
    assert t2.state.final == "" && !t2.state.revisedOnce;
    assert step(Writer, t2.state) == LegacyWriter(t2.state, ctx);
    assert ctx.complete(SelectModel(ctx.model), WritePrompt(t2.state.query, Listing(t2.state.results))).text != "";
    assert t3.state.draft != "" && t3.state.final == "" && !t3.state.revisedOnce;
    assert step(Reviewer, t3.state) == LegacyReviewer(t3.state, ctx);
    assert t4.state.draft == t3.state.draft;
    assert !LegacyRoute(t4.state);
  }
}
