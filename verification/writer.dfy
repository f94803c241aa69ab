/** The writer stage (agents/writer.py): number the first twenty results
    for the prompt, ask the model for a brief, and collect the distinct
    non-empty URLs of those same twenty results as references. The stage
    never raises. */
module WriterAgent {
  import opened Wrappers
  import opened Env
  import opened Text
  import opened Dedup
  import opened Llm
  import opened State

  const NoResultsDraft := "No research results available to synthesize."
  /** Only the first results are shown to the model and referenced. */
  const MaxSources := 20

  /** The numbered source list of the prompt: `[i+1]` for `results[i]`. */
  function Listing(results: seq<SearchResult>): (r: seq<Source>)
    ensures |r| == Min(MaxSources, |results|)
  {
    var top := Take(results, MaxSources);
    seq(|top|, i requires 0 <= i < |top| => Source(i + 1, top[i].title, top[i].url, top[i].snippet))
  }

  function UrlsOf(results: seq<SearchResult>): (r: seq<string>)
    ensures |r| == |results|
  {
    seq(|results|, i requires 0 <= i < |results| => results[i].url)
  }

  function Id(u: string): string { u }

  /** The reference list: the URLs of the first twenty results, without
      empty or repeated ones, in first-seen order. */
  function References(results: seq<SearchResult>): (refs: seq<string>)
    ensures |refs| <= MaxSources && |refs| <= |results|
  {
    KeepFirst(UrlsOf(Take(results, MaxSources)), Id)
  }

  /** The references are distinct and non-empty, at most one per listed
      source, and they are exactly the non-empty URLs of the first twenty
      results. */
  lemma ReferencesSpec(results: seq<SearchResult>)
    ensures var refs := References(results);
      && UniqueKeys(refs, Id)
      && |refs| <= Min(MaxSources, |results|)
      && (set u | u in refs) == (set i | 0 <= i < Min(MaxSources, |results|) && results[i].url != "" :: results[i].url)
  {
    var urls := UrlsOf(Take(results, MaxSources));
    var refs := References(results);
    KeepFirstSpec(urls, Id);
    assert (set u | u in refs) == KeySet(refs, Id) by {
      forall u | u in refs ensures u in KeySet(refs, Id) {
        var k :| 0 <= k < |refs| && refs[k] == u;
        KeySetMember(refs, Id, k);
      }
    }
    assert KeySet(urls, Id) == (set i | 0 <= i < Min(MaxSources, |results|) && results[i].url != "" :: results[i].url) by {
      forall u | u in KeySet(urls, Id)
        ensures u in (set i | 0 <= i < Min(MaxSources, |results|) && results[i].url != "" :: results[i].url)
      {
        var i :| 0 <= i < |urls| && Id(urls[i]) != "" && Id(urls[i]) == u;
        assert urls[i] == results[i].url;
      }
      forall i | 0 <= i < Min(MaxSources, |results|) && results[i].url != ""
        ensures results[i].url in KeySet(urls, Id)
      {
        assert urls[i] == results[i].url;
        KeySetMember(urls, Id, i);
      }
    }
  }

  /** When the results already have distinct non-empty URLs, as the
      researcher guarantees, reference `i` is the URL of the source the
      prompt numbers `i + 1`. */
  lemma ReferencesMatchListing(results: seq<SearchResult>)
    requires UniqueKeys(results, UrlOf)
    ensures var refs := References(results);
      var listing := Listing(results);
      && |refs| == |listing| == Min(MaxSources, |results|)
      && (forall i :: 0 <= i < |refs| ==> listing[i].number == i + 1 && refs[i] == listing[i].url)
  {
    var urls := UrlsOf(Take(results, MaxSources));
    assert UniqueKeys(urls, Id) by {
      forall i | 0 <= i < |urls| ensures Id(urls[i]) != "" {
        assert urls[i] == results[i].url == UrlOf(results[i]);
      }
      forall i, j | 0 <= i < j < |urls| ensures Id(urls[i]) != Id(urls[j]) {
        assert urls[i] == UrlOf(results[i]) && urls[j] == UrlOf(results[j]);
      }
    }
    KeepFirstUnique(urls, Id);
  }

  function DraftUpdate(draft: string, references: seq<string>, message: string): Update {
    Update([Ai(message)], None, None, Some(draft), None, Some(references), None)
  }

  /** `writer_node(state)`: no results, an unusable model configuration and
      a failed call each give an explanatory draft and no references; a
      reply gives the stripped reply and the references. */
  function WriterNode(s: Record, cfg: Config, env: Env, complete: Complete): (u: Update)
    ensures OnlyDraft(u) && |u.messages| == 1
    ensures u.draft.value != ""
      || (GetLlm(cfg.llmProvider, cfg.modelName, env).Success?
          && complete(GetLlm(cfg.llmProvider, cfg.modelName, env).value, WritePrompt(s.query, Listing(s.results))).Reply?)
    ensures s.results == [] ==> u.draft == Some(NoResultsDraft) && u.references == Some([])
  {
    if s.results == [] then
      DraftUpdate(NoResultsDraft, [], Warning + "No results to write about")
    else
      match GetLlm(cfg.llmProvider, cfg.modelName, env)
      case Failure(e) =>
        DraftUpdate("Error: Could not initialize LLM - " + e, [], Warning + "Writer error: " + e)
      case Success(llm) =>
        match complete(llm, WritePrompt(s.query, Listing(s.results)))
        case Raised(e) =>
          DraftUpdate("Error generating brief: " + e, [], Warning + "Writing failed: " + e)
        case Reply(text) =>
          var refs := References(s.results);
          DraftUpdate(Strip(text), refs, "Draft complete with " + NatToString(|refs|) + " references")
  }

  /** References are produced only when the model replied, and the draft
      is then the reply without surrounding whitespace: stripping it again
      changes nothing, and it is empty only for an all-whitespace reply. */
  lemma WriterOnReply(s: Record, cfg: Config, env: Env, complete: Complete)
    ensures var u := WriterNode(s, cfg, env, complete);
      var llm := GetLlm(cfg.llmProvider, cfg.modelName, env);
      var replied := s.results != [] && llm.Success?
        && complete(llm.value, WritePrompt(s.query, Listing(s.results))).Reply?;
      && (!replied ==> u.references == Some([]))
      && (replied ==>
            var text := complete(llm.value, WritePrompt(s.query, Listing(s.results))).text;
            && u.references == Some(References(s.results))
            && u.draft == Some(Strip(text))
            && Strip(u.draft.value) == u.draft.value
            && (u.draft.value == "" <==> AllSpace(text)))
  {
    var llm := GetLlm(cfg.llmProvider, cfg.modelName, env);
    if s.results != [] && llm.Success? && complete(llm.value, WritePrompt(s.query, Listing(s.results))).Reply? {
      var text := complete(llm.value, WritePrompt(s.query, Listing(s.results))).text;
      StripIdempotent(text);
      StripBlank(text);
    }
  }

  /** The two failure drafts: an unusable model configuration and a failed
      call each put the error text into the draft, behind a fixed prefix,
      and give no references. */
  lemma WriterErrorDrafts(s: Record, cfg: Config, env: Env, complete: Complete)
    ensures var u := WriterNode(s, cfg, env, complete);
      var llm := GetLlm(cfg.llmProvider, cfg.modelName, env);
      && (s.results != [] && llm.Failure? ==>
            && u.draft == Some("Error: Could not initialize LLM - " + llm.error)
            && u.references == Some([]))
      && (s.results != [] && llm.Success?
          && complete(llm.value, WritePrompt(s.query, Listing(s.results))).Raised? ==>
            && u.draft == Some("Error generating brief: "
                               + complete(llm.value, WritePrompt(s.query, Listing(s.results))).error)
            && u.references == Some([]))
  {
  }
}
