/** The modular workflow (workflow.py): the routing rule after the
    reviewer, the initial state, and `run_research` driving the four agent
    stages through the graph. */
module Workflow {
  import opened Wrappers
  import opened Env
  import opened Text
  import opened Json
  import opened Llm
  import opened Search
  import opened State
  import opened Dedup
  import opened Pipeline
  import opened PlannerAgent
  import opened ResearcherAgent
  import opened WriterAgent
  import opened ReviewerAgent

  /** Everything outside the program that a run consults: the environment,
      the model, the JSON decoder, the network and the DuckDuckGo library. */
  datatype Context = Context(env: Env, complete: Complete, parseJson: JsonDecoder, net: Network, ddg: DdgLibrary)

  /** `search(step, provider=state["search_provider"], num_results=state["num_results"])`. */
  function SearchFor(cfg: Config, ctx: Context): string -> SearchOutcome {
    q => Search.Search(q, cfg.searchProvider, cfg.numResults, ctx.env, ctx.net, ctx.ddg)
  }

  function RunNode(cfg: Config, ctx: Context, n: Node, s: Record): Update {
    match n
    case Planner => PlannerNode(s, cfg, ctx.env, ctx.complete, ctx.parseJson)
    case Researcher => ResearcherNode(s, SearchFor(cfg, ctx))
    case Writer => WriterNode(s, cfg, ctx.env, ctx.complete)
    case Reviewer => ReviewerNode(s, cfg, ctx.env, ctx.complete)
  }

  /** No stage raises: every step succeeds. */
  function NodeStep(cfg: Config, ctx: Context): (Node, Record) -> Result<Update, string> {
    (n, s) => Success(RunNode(cfg, ctx, n, s))
  }

  /** `_should_revise(state) == "writer"` as written: no final text, a
      draft, and no revision requested yet. */
  predicate ShouldRevise(s: Record) {
    s.final == "" && s.draft != "" && !s.revisedOnce
  }

  /** The rule that `_should_revise`'s docstring (workflow.py:54, "writer
      if revision needed and allowed") and the revision loop drawn at
      workflow.py:71-75 describe: go back to the writer once the reviewer
      has asked for a revision and nothing is final yet. */
  predicate ShouldReviseIntended(s: Record) {
    s.final == "" && s.draft != "" && s.revisedOnce
  }

  datatype Router = AsWritten | Intended

  function Route(router: Router): Record -> bool {
    match router
    case AsWritten => ShouldRevise
    case Intended => ShouldReviseIntended
  }

  /** The reviewer either sets a non-empty final text or asks for a
      revision, and both end the run under `_should_revise` as written: the
      route after the reviewer is always `END`. */
  lemma RouteAfterReviewIsEnd(s: Record, cfg: Config, env: Env, complete: Complete)
    ensures !ShouldRevise(Merge(s, ReviewerNode(s, cfg, env, complete)))
  {
  }

  /** The configuration `run_research` puts into the initial state. */
  function InitialConfig(llmProvider: Option<string>, modelName: Option<string>,
                         searchProvider: Option<string>, numResults: int): (cfg: Config)
    ensures MinResults <= cfg.numResults <= MaxResults
    ensures MinResults <= numResults <= MaxResults ==> cfg.numResults == numResults
  {
    Config(llmProvider, modelName, searchProvider, Clamp(numResults, MinResults, MaxResults))
  }

  /** The final state, the last update the run streamed, and the nodes run. */
  datatype RunOutput = RunOutput(state: Record, last: Update, visited: seq<Node>)

  datatype RunError = NoOutput | RecursionLimitReached | NodeRaised(error: string)

  function Execute(query: string, cfg: Config, ctx: Context, router: Router): Halt {
    Drive(BuildWorkflow(), NodeStep(cfg, ctx), Route(router), BuildWorkflow().entry,
          Trace(Initial(query), [], []), RecursionLimit)
  }

  /** `run_research(query, ...)`; `router` selects the routing rule. */
  function RunResearch(query: string, llmProvider: Option<string>, modelName: Option<string>,
                       searchProvider: Option<string>, numResults: int, ctx: Context, router: Router)
    : Result<RunOutput, RunError>
  {
    var cfg := InitialConfig(llmProvider, modelName, searchProvider, numResults);
    match Execute(query, cfg, ctx, router)
    case Finished(t) =>
      if t.updates == [] then Failure(NoOutput)
      else Success(RunOutput(t.state, t.updates[|t.updates| - 1], t.visited))
    case Crashed(e, _) => Failure(NodeRaised(e))
    case OutOfFuel(_) => Failure(RecursionLimitReached)
  }

  /** The keyword defaults of `run_research`. */
  const DefaultRunProvider := "anthropic"
  const DefaultRunModel := "claude-sonnet-4-5-20250929"
  const DefaultRunSearch := "duckduckgo"
  const DefaultRunResults := 5

  /** `run_research(query)`: every keyword argument at its default. */
  function RunResearchDefault(query: string, ctx: Context, router: Router): Result<RunOutput, RunError> {
    RunResearch(query, Some(DefaultRunProvider), Some(DefaultRunModel), Some(DefaultRunSearch),
                DefaultRunResults, ctx, router)
  }

  /** With the defaults, the stages use the Anthropic client with the default
      model whatever `LLM_PROVIDER` and `MODEL_NAME` say, and need only
      `ANTHROPIC_API_KEY` for it; they search DuckDuckGo for five results
      whatever `SEARCH_PROVIDER` says. */
  lemma DefaultRunChoices(ctx: Context, q: string)
    ensures var cfg := InitialConfig(Some(DefaultRunProvider), Some(DefaultRunModel), Some(DefaultRunSearch),
                                     DefaultRunResults);
      var llm := GetLlm(cfg.llmProvider, cfg.modelName, ctx.env);
      && (llm.Success? <==> Truthy(Getenv(ctx.env, "ANTHROPIC_API_KEY")))
      && (llm.Success? ==> llm.value.api == AnthropicChat && llm.value.model == DefaultRunModel)
      && SearchFor(cfg, ctx)(q) == DuckDuckGo(q, 5, ctx.ddg)
  {
  }

  /** Clamping the count first changes nothing. */
  lemma RunClampsCount(query: string, llmProvider: Option<string>, modelName: Option<string>,
                       searchProvider: Option<string>, numResults: int, ctx: Context, router: Router)
    ensures RunResearch(query, llmProvider, modelName, searchProvider, numResults, ctx, router)
      == RunResearch(query, llmProvider, modelName, searchProvider,
                     Clamp(numResults, MinResults, MaxResults), ctx, router)
  {
    assert InitialConfig(llmProvider, modelName, searchProvider, numResults)
      == InitialConfig(llmProvider, modelName, searchProvider, Clamp(numResults, MinResults, MaxResults));
  }

  /** The traces of a run after the planner, researcher, writer and
      reviewer have each run once, in that order. */
  datatype Stages = Stages(t1: Trace, t2: Trace, t3: Trace, t4: Trace)

  function StagesOf(query: string, cfg: Config, ctx: Context): Stages {
    var step := NodeStep(cfg, ctx);
    var t1 := After(step, Planner, Trace(Initial(query), [], []));
    var t2 := After(step, Researcher, t1);
    var t3 := After(step, Writer, t2);
    var t4 := After(step, Reviewer, t3);
    Stages(t1, t2, t3, t4)
  }

  /** The first four steps of any run, whatever the router. */
  lemma FirstFourSteps(query: string, cfg: Config, ctx: Context, router: Router)
    ensures var st := StagesOf(query, cfg, ctx);
      && st.t4.visited == [Planner, Researcher, Writer, Reviewer]
      && Execute(query, cfg, ctx, router)
        == (if Route(router)(st.t4.state)
            then Drive(BuildWorkflow(), NodeStep(cfg, ctx), Route(router), Writer, st.t4, RecursionLimit - 4)
            else Finished(st.t4))
  {
    var step := NodeStep(cfg, ctx);
    var toBranch := Route(router);
    var t0 := Trace(Initial(query), [], []);
    var t4 := StagesOf(query, cfg, ctx).t4;
    assert t4.visited == [Planner, Researcher, Writer, Reviewer]
      && Drive(BuildWorkflow(), step, toBranch, Planner, t0, RecursionLimit)
        == if toBranch(t4.state) then Drive(BuildWorkflow(), step, toBranch, Writer, t4, RecursionLimit - 4) else Finished(t4)
    by {
      assert forall n, s :: step(n, s).Success?;
      MainLine(step, toBranch, t0, RecursionLimit);
    }
    assert Execute(query, cfg, ctx, router) == Drive(BuildWorkflow(), step, toBranch, Planner, t0, RecursionLimit);
  }

  /** What each stage contributes: one message each; only the reviewer
      writes the final text or the revision flag, so the reviewer sees
      neither; the final state is the reviewer's update merged in. */
  lemma StageFacts(query: string, cfg: Config, ctx: Context)
    ensures var st := StagesOf(query, cfg, ctx);
      var s1 := st.t1.state;
      var s2 := st.t2.state;
      var s3 := st.t3.state;
      var s4 := st.t4.state;
      && s2.results == ResearcherNode(s1, SearchFor(cfg, ctx)).results.value
      && s3.references == WriterNode(s2, cfg, ctx.env, ctx.complete).references.value
      && s3.final == "" && !s3.revisedOnce
      && s4 == Merge(s3, ReviewerNode(s3, cfg, ctx.env, ctx.complete))
      && s4.draft == s3.draft && s4.results == s2.results && s4.references == s3.references
      && |st.t4.updates| == 4 && st.t4.updates[3] == ReviewerNode(s3, cfg, ctx.env, ctx.complete)
      && |s4.messages| == 5 && s4.messages[0] == Human(query)
  {
    var st := StagesOf(query, cfg, ctx);
    var s0 := Initial(query);
    var u1 := PlannerNode(s0, cfg, ctx.env, ctx.complete, ctx.parseJson);
    assert st.t1.state == Merge(s0, u1);
    var u2 := ResearcherNode(st.t1.state, SearchFor(cfg, ctx));
    assert st.t2.state == Merge(st.t1.state, u2);
    var u3 := WriterNode(st.t2.state, cfg, ctx.env, ctx.complete);
    assert st.t3.state == Merge(st.t2.state, u3);
    var u4 := ReviewerNode(st.t3.state, cfg, ctx.env, ctx.complete);
    assert st.t4.state == Merge(st.t3.state, u4);
  }

  /** As written, every run visits each stage exactly once and stops after
      the reviewer; it always yields output, with one message per stage
      after the query, and its last update is the reviewer's. */
  lemma RunVisitsEachStageOnce(query: string, llmProvider: Option<string>, modelName: Option<string>,
                               searchProvider: Option<string>, numResults: int, ctx: Context)
    ensures var r := RunResearch(query, llmProvider, modelName, searchProvider, numResults, ctx, AsWritten);
      var cfg := InitialConfig(llmProvider, modelName, searchProvider, numResults);
      var st := StagesOf(query, cfg, ctx);
      && r.Success?
      && r.value.visited == [Planner, Researcher, Writer, Reviewer]
      && r.value.state == st.t4.state
      && r.value.last == ReviewerNode(st.t3.state, cfg, ctx.env, ctx.complete)
      && |r.value.state.messages| == 5 && r.value.state.messages[0] == Human(query)
  {
    var cfg := InitialConfig(llmProvider, modelName, searchProvider, numResults);
    var st := StagesOf(query, cfg, ctx);
    FirstFourSteps(query, cfg, ctx, AsWritten);
    StageFacts(query, cfg, ctx);
    RouteAfterReviewIsEnd(st.t3.state, cfg, ctx.env, ctx.complete);
  }

  /** The defect of `_should_revise`: a run ends without a final text
      exactly when the reviewer asked for a revision, and the writer is
      never asked for it. */
  lemma AsWrittenRevisionLosesFinal(query: string, llmProvider: Option<string>, modelName: Option<string>,
                                    searchProvider: Option<string>, numResults: int, ctx: Context)
    ensures var r := RunResearch(query, llmProvider, modelName, searchProvider, numResults, ctx, AsWritten);
      && r.Success?
      && r.value.visited == [Planner, Researcher, Writer, Reviewer]
      && (r.value.state.final == "" <==> r.value.state.revisedOnce)
  {
    var cfg := InitialConfig(llmProvider, modelName, searchProvider, numResults);
    RunVisitsEachStageOnce(query, llmProvider, modelName, searchProvider, numResults, ctx);
    StageFacts(query, cfg, ctx);
  }

  /** A context that shows it: a model that always asks for revision, a
      local server that needs no key, and searches that find nothing. */
  function RevisingContext(): Context {
    Context(map["LLM_PROVIDER" := "ollama"],
            (c, p) => Reply("NEEDS_REVISION: claims lack citations"),
            t => NotJson,
            (r, a) => RequestFailed("unreachable"),
            (q, k) => DdgFailed("unreachable"))
  }

  /** In that context the searches find nothing ... */
  lemma RevisingRunFindsNothing(query: string)
    ensures StagesOf(query, InitialConfig(None, None, None, 5), RevisingContext()).t2.state.results == []
  {
    var ctx := RevisingContext();
    var cfg := InitialConfig(None, None, None, 5);
    var st := StagesOf(query, cfg, ctx);
    StageFacts(query, cfg, ctx);
    var search := SearchFor(cfg, ctx);
    forall q ensures search(q) == Hits([]) {
      assert search(q) == Search.Search(q, None, cfg.numResults, ctx.env, ctx.net, ctx.ddg);
    }
    NothingFound(st.t1.state, search);
  }

  /** ... so the draft is the writer's notice, and the reviewer asks for a
      revision of it. */
  lemma RevisingRunAsksRevision(query: string)
    ensures var st := StagesOf(query, InitialConfig(None, None, None, 5), RevisingContext());
      && st.t3.state.draft == NoResultsDraft
      && ReviewerNode(st.t3.state, InitialConfig(None, None, None, 5), RevisingContext().env,
                      RevisingContext().complete).revisedOnce == Some(true)
  {
    var ctx := RevisingContext();
    var cfg := InitialConfig(None, None, None, 5);
    var s3 := StagesOf(query, cfg, ctx).t3.state;
    RevisingDraft(query);
    var llm := GetLlm(None, None, ctx.env);
    assert llm.Success?;
    var review := "NEEDS_REVISION: claims lack citations";
    assert ctx.complete(llm.value, ReviewPrompt(s3.draft)) == Reply(review);
    ReviewAsksRevision(review);
    ReviewerDecision(s3, cfg, ctx.env, ctx.complete);
  }

  /** With nothing found, the writer drafts its notice. */
  lemma RevisingDraft(query: string)
    ensures StagesOf(query, InitialConfig(None, None, None, 5), RevisingContext()).t3.state.draft == NoResultsDraft
  {
    var ctx := RevisingContext();
    var cfg := InitialConfig(None, None, None, 5);
    var st := StagesOf(query, cfg, ctx);
    RevisingRunFindsNothing(query);
    StageFacts(query, cfg, ctx);
    assert st.t3.state == Merge(st.t2.state, WriterNode(st.t2.state, cfg, ctx.env, ctx.complete));
  }

  /** A reply that opens with the marker asks for a revision. */
  lemma ReviewAsksRevision(review: string)
    requires |review| >= |RevisionMarker| && review[0..|RevisionMarker|] == RevisionMarker
    ensures NeedsRevision(review)
  {
    assert OccursAt(review, RevisionMarker, 0);
    assert AsciiUpper(RevisionMarker) == RevisionMarker;
    NeedsRevisionAnyCase(review, RevisionMarker);
  }

  /** In that context the run ends with the writer's notice as draft, a
      revision requested, and no final text. */
  lemma RevisingRunHasNoFinal(query: string)
    ensures var r := RunResearch(query, None, None, None, 5, RevisingContext(), AsWritten);
      && r.Success?
      && r.value.state.final == ""
      && r.value.state.revisedOnce
      && r.value.state.draft == NoResultsDraft
  {
    var ctx := RevisingContext();
    var cfg := InitialConfig(None, None, None, 5);
    RunVisitsEachStageOnce(query, None, None, None, 5, ctx);
    AsWrittenRevisionLosesFinal(query, None, None, None, 5, ctx);
    StageFacts(query, cfg, ctx);
    RevisingRunAsksRevision(query);
  }

  /** With the intended rule, the pass a revision request starts runs the
      writer and the reviewer once more and then ends with a final text. */
  lemma IntendedSecondPass(cfg: Config, ctx: Context, t: Trace, fuel: nat)
    requires fuel >= 2 && ShouldReviseIntended(t.state)
    ensures var step := NodeStep(cfg, ctx);
      var t6 := After(step, Reviewer, After(step, Writer, t));
      && Drive(BuildWorkflow(), step, Route(Intended), Writer, t, fuel) == Finished(t6)
      && t6.visited == t.visited + [Writer, Reviewer]
      && t6.state.final != "" && t6.state.revisedOnce
  {
    var step := NodeStep(cfg, ctx);
    var t5 := After(step, Writer, t);
    var t6 := After(step, Reviewer, t5);
    assert forall n, s :: step(n, s).Success?;
    WriterPass(step, Route(Intended), t, fuel);
    var u5 := WriterNode(t.state, cfg, ctx.env, ctx.complete);
    assert t5.state == Merge(t.state, u5);
    var u6 := ReviewerNode(t5.state, cfg, ctx.env, ctx.complete);
    assert t6.state == Merge(t5.state, u6);
    ReviewerFinalizesAfterRevision(t5.state, cfg, ctx.env, ctx.complete);
  }

  /** With the intended rule every run ends with a final text, after the
      four stages or after one more writer and reviewer pass, which happens
      exactly when a revision was requested. */
  lemma IntendedRunFinishes(query: string, llmProvider: Option<string>, modelName: Option<string>,
                            searchProvider: Option<string>, numResults: int, ctx: Context)
    ensures var r := RunResearch(query, llmProvider, modelName, searchProvider, numResults, ctx, Intended);
      && r.Success?
      && r.value.state.final != ""
      && (r.value.visited == [Planner, Researcher, Writer, Reviewer]
          || r.value.visited == [Planner, Researcher, Writer, Reviewer, Writer, Reviewer])
      && (r.value.state.revisedOnce <==> |r.value.visited| == 6)
  {
    IntendedExecuteFinishes(query, InitialConfig(llmProvider, modelName, searchProvider, numResults), ctx);
  }

  /** The run behind `IntendedRunFinishes`, for any configuration. */
  lemma IntendedExecuteFinishes(query: string, cfg: Config, ctx: Context)
    ensures var h := Execute(query, cfg, ctx, Intended);
      && h.Finished?
      && |h.trace.updates| >= 4
      && h.trace.state.final != ""
      && (h.trace.visited == [Planner, Researcher, Writer, Reviewer]
          || h.trace.visited == [Planner, Researcher, Writer, Reviewer, Writer, Reviewer])
      && (h.trace.state.revisedOnce <==> |h.trace.visited| == 6)
  {
    var st := StagesOf(query, cfg, ctx);
    FirstFourSteps(query, cfg, ctx, Intended);
    StageFacts(query, cfg, ctx);
    if ShouldReviseIntended(st.t4.state) {
      IntendedSecondPass(cfg, ctx, st.t4, RecursionLimit - 4);
    }
  }

  /** Across the stages, the writer's references line up with the sources
      it numbered: reference `i` is the URL of source `[i+1]`, because the
      researcher's results have distinct non-empty URLs. */
  lemma RunReferencesMatchSources(query: string, llmProvider: Option<string>, modelName: Option<string>,
                                  searchProvider: Option<string>, numResults: int, ctx: Context)
    ensures var r := RunResearch(query, llmProvider, modelName, searchProvider, numResults, ctx, AsWritten);
      && r.Success?
      && |r.value.state.references| <= |Listing(r.value.state.results)|
      && (forall i :: 0 <= i < |r.value.state.references| ==>
            r.value.state.references[i] == Listing(r.value.state.results)[i].url
            && Listing(r.value.state.results)[i].number == i + 1)
  {
    var cfg := InitialConfig(llmProvider, modelName, searchProvider, numResults);
    var st := StagesOf(query, cfg, ctx);
    RunVisitsEachStageOnce(query, llmProvider, modelName, searchProvider, numResults, ctx);
    StageFacts(query, cfg, ctx);
    ResearcherNodeResults(st.t1.state, SearchFor(cfg, ctx), SearchFor(cfg, ctx));
    WriterOnReply(st.t2.state, cfg, ctx.env, ctx.complete);
    if st.t3.state.references != [] {
      ReferencesMatchListing(st.t2.state.results);
    }
  }

  /** The run's messages are the query followed by the stages' messages,
      and its final state is the merge of its updates in order. */
  lemma RunTraceReplays(query: string, cfg: Config, ctx: Context, router: Router)
    ensures var h := Execute(query, cfg, ctx, router);
      && h.trace.state == Replay(Initial(query), h.trace.updates)
      && h.trace.state.messages == [Human(query)] + Flatten(h.trace.updates)
      && |h.trace.visited| == |h.trace.updates| <= RecursionLimit
  {
    DriveExtends(BuildWorkflow(), NodeStep(cfg, ctx), Route(router), BuildWorkflow().entry,
                 Trace(Initial(query), [], []), RecursionLimit, Initial(query));
    ReplayMessages(Initial(query), Execute(query, cfg, ctx, router).trace.updates);
  }
}
