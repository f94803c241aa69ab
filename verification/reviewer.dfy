/** The reviewer stage (agents/reviewer.py): approve the draft, or ask
    once for a revision when the reply mentions `NEEDS_REVISION`. It fails
    open: a missing draft, an unusable model or a failed call all end in a
    final text. The stage never raises. */
module ReviewerAgent {
  import opened Wrappers
  import opened Env
  import opened Text
  import opened Llm
  import opened State

  const NoDraftFinal := "No draft available."
  const RevisionMarker := "NEEDS_REVISION"

  /** `"NEEDS_REVISION" in review.upper()`. */
  predicate NeedsRevision(review: string) {
    Contains(AsciiUpper(review), RevisionMarker)
  }

  /** The marker is found in any letter case: every spelling that
      upper-cases to it counts. */
  lemma NeedsRevisionAnyCase(review: string, sub: string)
    requires AsciiUpper(sub) == RevisionMarker
    requires Contains(review, sub)
    ensures NeedsRevision(review)
  {
    ContainsUpper(review, sub);
  }

  function Finalize(final: string, message: string): Update {
    Update([Ai(message)], None, None, None, Some(final), None, None)
  }

  function RequestRevision(message: string): Update {
    Update([Ai(message)], None, None, None, None, None, Some(true))
  }

  /** `reviewer_node(state)`. */
  function ReviewerNode(s: Record, cfg: Config, env: Env, complete: Complete): (u: Update)
    ensures OnlyVerdict(u) && |u.messages| == 1
    ensures u.final.Some? ==> u.final.value != ""
    ensures u.revisedOnce.Some? ==> u.revisedOnce.value && !s.revisedOnce && s.draft != ""
  {
    if s.draft == "" then Finalize(NoDraftFinal, Warning + "No draft to review")
    else
      match GetLlm(cfg.llmProvider, cfg.modelName, env)
      case Failure(e) => Finalize(s.draft, Warning + "Reviewer unavailable, auto-approving: " + e)
      case Success(llm) =>
        match complete(llm, ReviewPrompt(s.draft))
        case Raised(e) => Finalize(s.draft, Warning + "Review failed, auto-approving: " + e)
        case Reply(review) =>
          var needs := NeedsRevision(review);
          if needs && !s.revisedOnce then RequestRevision("Requesting revision: " + review)
          else Finalize(s.draft, if !needs then "Research complete" else "Revision limit reached, finalizing")
  }

  /** The decision table: a revision is requested exactly when there is a
      draft, the model replied, the reply asks for a revision and none was
      requested before; in every other case the draft (or, without one, a
      fixed notice) becomes final. */
  lemma ReviewerDecision(s: Record, cfg: Config, env: Env, complete: Complete)
    ensures var u := ReviewerNode(s, cfg, env, complete);
      var llm := GetLlm(cfg.llmProvider, cfg.modelName, env);
      && (u.revisedOnce.Some? <==>
            (s.draft != "" && llm.Success? && complete(llm.value, ReviewPrompt(s.draft)).Reply?
             && NeedsRevision(complete(llm.value, ReviewPrompt(s.draft)).text) && !s.revisedOnce))
      && (u.final.Some? <==> !u.revisedOnce.Some?)
      && (s.draft == "" ==> u.final == Some(NoDraftFinal))
      && (s.draft != "" && u.final.Some? ==> u.final.value == s.draft)
  {
  }

  /** Once a revision has been requested, the reviewer always finalizes. */
  lemma ReviewerFinalizesAfterRevision(s: Record, cfg: Config, env: Env, complete: Complete)
    requires s.revisedOnce
    ensures ReviewerNode(s, cfg, env, complete).final.Some?
    ensures s.draft != "" ==> ReviewerNode(s, cfg, env, complete).final == Some(s.draft)
  {
  }
}
