/** The planner stage (agents/planner.py): ask the model for a JSON list of
    2-5 research steps and fall back, in order, to the reply's non-blank
    lines and then to the query itself. The stage never raises. */
module PlannerAgent {
  import opened Wrappers
  import opened Env
  import opened Text
  import opened Json
  import opened Llm
  import opened State

  const MinSteps := 2
  const MaxSteps := 5

  /** `[str(step) for step in plan]`. */
  function StringifyAll(items: seq<JsonValue>): (r: seq<string>)
    ensures |r| == |items|
  {
    seq(|items|, i requires 0 <= i < |items| => Stringify(items[i]))
  }

  /** `[line.strip() for line in response.split("\n") if line.strip()]`. */
  function ReplyLines(response: string): seq<string> {
    StrippedNonBlank(Split(response, '\n'))
  }

  /** The plan a reply yields, given what `json.loads` made of it. */
  function PlanFromReply(query: string, response: string, parsed: JsonOutcome): (plan: seq<string>)
    ensures 1 <= |plan| <= MaxSteps
  {
    match parsed
    case JsonArray(items) =>
      if MinSteps <= |items| <= MaxSteps then StringifyAll(items) else [query]
    case JsonNonArray => [query]
    case NotJson =>
      var lines := ReplyLines(response);
      if lines == [] then [query] else Take(lines, MaxSteps)
  }

  /** A JSON list of 2-5 items is the plan, item for item and in order;
      string items are kept verbatim. */
  lemma PlanFromJsonList(query: string, response: string, items: seq<JsonValue>)
    requires MinSteps <= |items| <= MaxSteps
    ensures var plan := PlanFromReply(query, response, JsonArray(items));
      && |plan| == |items|
      && (forall i :: 0 <= i < |items| ==> plan[i] == Stringify(items[i]))
      && (forall i :: 0 <= i < |items| && items[i].JString? ==> plan[i] == items[i].s)
  {
  }

  /** Valid JSON that is not a list, or a list of the wrong length, gives
      the query as the only step. */
  lemma PlanRejectsOtherJson(query: string, response: string, parsed: JsonOutcome)
    requires parsed.JsonNonArray? || (parsed.JsonArray? && !(MinSteps <= |parsed.items| <= MaxSteps))
    ensures PlanFromReply(query, response, parsed) == [query]
  {
  }

  /** A reply that is not JSON gives its first (at most five) stripped,
      non-blank lines; each is the stripped form of a line of the reply and
      is non-blank and already stripped. Without such lines the plan is the
      query. */
  lemma PlanFromLines(query: string, response: string)
    ensures var plan := PlanFromReply(query, response, NotJson);
      var lines := ReplyLines(response);
      && (lines == [] ==> plan == [query])
      && (lines != [] ==> plan == Take(lines, MaxSteps) && |plan| == Min(|lines|, MaxSteps))
      && (lines != [] ==> forall i :: 0 <= i < |plan| ==>
            plan[i] != "" && plan[i] in StripAll(Split(response, '\n')) && Strip(plan[i]) == plan[i])
  {
    var lines := ReplyLines(response);
    var plan := PlanFromReply(query, response, NotJson);
    if lines != [] {
      StrippedNonBlankSound(Split(response, '\n'));
      forall i | 0 <= i < |plan|
        ensures plan[i] != "" && plan[i] in StripAll(Split(response, '\n')) && Strip(plan[i]) == plan[i]
      {
        assert plan[i] == lines[i];
        assert lines[i] in lines;
        StripAllStripped(Split(response, '\n'), plan[i]);
      }
    }
  }

  /** The line fallback has no lower bound of two: a single non-blank line
      that is not JSON is a one-step plan. */
  lemma SingleLinePlan(query: string, response: string)
    requires '\n' !in response && !AllSpace(response)
    ensures PlanFromReply(query, response, NotJson) == [Strip(response)]
  {
    SplitWithoutSeparator(response, '\n');
    StripBlank(response);
    assert ReplyLines(response) == [Strip(response)] + StrippedNonBlank([]);
  }

  function PlanUpdate(plan: seq<string>, message: string): Update {
    Update([Ai(message)], Some(plan), None, None, None, None, None)
  }

  /** `planner_node(state)`: an unusable model configuration or a failed
      call falls back to the query, each with its own warning; a reply is
      turned into a plan as above. */
  function PlannerNode(s: Record, cfg: Config, env: Env, complete: Complete, parse: JsonDecoder): (u: Update)
    ensures OnlyPlan(u) && |u.messages| == 1
    ensures 1 <= |u.plan.value| <= MaxSteps
    ensures GetLlm(cfg.llmProvider, cfg.modelName, env).Failure? ==>
      u == PlanUpdate([s.query], Warning + "Planner error: " + GetLlm(cfg.llmProvider, cfg.modelName, env).error)
  {
    match GetLlm(cfg.llmProvider, cfg.modelName, env)
    case Failure(e) => PlanUpdate([s.query], Warning + "Planner error: " + e)
    case Success(llm) =>
      match complete(llm, PlanPrompt(s.query))
      case Raised(e) => PlanUpdate([s.query], Warning + "Planning failed, using direct query: " + e)
      case Reply(text) =>
        var plan := PlanFromReply(s.query, text, parse(text));
        PlanUpdate(plan, "Created research plan with " + NatToString(|plan|) + " steps")
  }

  /** The plan is the query alone whenever the model cannot be used or its
      call fails, and otherwise it is what the reply yields. */
  lemma PlannerFallsBack(s: Record, cfg: Config, env: Env, complete: Complete, parse: JsonDecoder)
    ensures var u := PlannerNode(s, cfg, env, complete, parse);
      var llm := GetLlm(cfg.llmProvider, cfg.modelName, env);
      && (llm.Failure? || complete(llm.value, PlanPrompt(s.query)).Raised? ==> u.plan == Some([s.query]))
      && (llm.Success? && complete(llm.value, PlanPrompt(s.query)).Reply? ==>
            var text := complete(llm.value, PlanPrompt(s.query)).text;
            u.plan == Some(PlanFromReply(s.query, text, parse(text))))
  {
  }
}
