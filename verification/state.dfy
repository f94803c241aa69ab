/** The research state threaded through the graph and the partial updates
    the nodes return. */
module State {
  import opened Wrappers

  datatype Message = Human(content: string) | Ai(content: string)

  /** A search hit stamped with the plan step that produced it. */
  datatype SearchResult = SearchResult(title: string, url: string, snippet: string, stepIndex: nat)

  function UrlOf(r: SearchResult): string { r.url }

  function StepOf(r: SearchResult): int { r.stepIndex }

  /** The four configuration fields of `ResearchState`. No node writes
      them, so they travel beside the record instead of inside it. */
  datatype Config = Config(
    llmProvider: Option<string>,
    modelName: Option<string>,
    searchProvider: Option<string>,
    numResults: int)

  /** The fields of `ResearchState` that nodes read or write. */
  datatype Record = Record(
    messages: seq<Message>,
    query: string,
    plan: seq<string>,
    results: seq<SearchResult>,
    draft: string,
    final: string,
    references: seq<string>,
    revisedOnce: bool)

  /** A node's return value: the messages it appends and the fields it
      sets; `None` is a key absent from the returned dict. */
  datatype Update = Update(
    messages: seq<Message>,
    plan: Option<seq<string>>,
    results: Option<seq<SearchResult>>,
    draft: Option<string>,
    final: Option<string>,
    references: Option<seq<string>>,
    revisedOnce: Option<bool>)

  /** The prefix the source puts before every degraded-path message. */
  const Warning := "\U{26A0}\U{FE0F}  "

  /** The state a run starts from: the query as the only message, empty
      collections and strings, no revision yet. */
  function Initial(query: string): (s: Record)
    ensures s.messages == [Human(query)] && s.query == query
    ensures s.plan == [] && s.results == [] && s.references == []
    ensures s.draft == "" && s.final == "" && !s.revisedOnce
  {
    Record([Human(query)], query, [], [], "", "", [], false)
  }

  /** The update touches only the plan. */
  predicate OnlyPlan(u: Update) {
    u.plan.Some? && u.results.None? && u.draft.None? && u.final.None?
    && u.references.None? && u.revisedOnce.None?
  }

  /** The update touches only the results. */
  predicate OnlyResults(u: Update) {
    u.plan.None? && u.results.Some? && u.draft.None? && u.final.None?
    && u.references.None? && u.revisedOnce.None?
  }

  /** The update touches only the draft and the references. */
  predicate OnlyDraft(u: Update) {
    u.plan.None? && u.results.None? && u.draft.Some? && u.final.None?
    && u.references.Some? && u.revisedOnce.None?
  }

  /** The update touches exactly one of `final` and `revised_once`. */
  predicate OnlyVerdict(u: Update) {
    u.plan.None? && u.results.None? && u.draft.None? && u.references.None?
    && (u.final.Some? != u.revisedOnce.Some?)
  }

  /** LangGraph's merge of a node's return value: `messages` has the
      `operator.add` reducer, every other key present replaces the field. */
  function Merge(s: Record, u: Update): (r: Record)
    ensures |r.messages| == |s.messages| + |u.messages|
    ensures r.messages[..|s.messages|] == s.messages
    ensures r.messages[|s.messages|..] == u.messages
    ensures r.query == s.query
    ensures r.plan == u.plan.GetOr(s.plan)
    ensures r.results == u.results.GetOr(s.results)
    ensures r.draft == u.draft.GetOr(s.draft)
    ensures r.final == u.final.GetOr(s.final)
    ensures r.references == u.references.GetOr(s.references)
    ensures r.revisedOnce == u.revisedOnce.GetOr(s.revisedOnce)
  {
    Record(
      s.messages + u.messages,
      s.query,
      u.plan.GetOr(s.plan),
      u.results.GetOr(s.results),
      u.draft.GetOr(s.draft),
      u.final.GetOr(s.final),
      u.references.GetOr(s.references),
      u.revisedOnce.GetOr(s.revisedOnce))
  }
}
