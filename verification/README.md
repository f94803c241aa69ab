# multi-agent-research, modelled in Dafny

This project models the pipeline controller of *multi-agent-research*. The controller answers a research query with four agents on a LangGraph state graph:

- the **planner** splits the query into 1-5 steps;
- the **researcher** searches each step and keeps the first result per URL;
- the **writer** asks the model for a cited brief and collects the references;
- the **reviewer** approves the brief or asks once for a revision.

Every node returns a partial update. The runtime merges that update into the state record: `messages` is concatenated and every other key present replaces its field. After the reviewer, a routing function decides between `END` and the writer.

Two capabilities are opaque, so the model takes them as parameters:

- the language model: a reply text or an exception text per client and prompt;
- the search back ends: a network answer per request and attempt, and the DuckDuckGo library's outcome.

`json.loads` is an oracle too, and the environment is an immutable map.

Modules, one per source unit:

| module | models |
|---|---|
| `State` | `ResearchState`, node updates, the merge rule |
| `Llm` | `providers/llm.py`: `get_llm`, `get_available_models` |
| `Search` | `providers/search.py`: dispatch, clamping, key checks, bounded retry, DuckDuckGo error mapping |
| `PlannerAgent`, `ResearcherAgent`, `WriterAgent`, `ReviewerAgent` | the four `agents/*.py` nodes |
| `Pipeline` | the graph both scripts compile, and a fuel-bounded driver that runs it as the runtime does |
| `Workflow` | `workflow.py`: `_should_revise`, the initial state, `run_research` |
| `Legacy` | `multi_agent_research.py`: the older single-file script |

Helper modules:

- `Wrappers`: `Option`, `Result`, clamping;
- `Env`: environment lookups;
- `Json`: decoded values;
- `Text`: Python's `strip`, `split`, `upper`, `in` and slicing;
- `Dedup`: first-occurrence deduplication by key, shared by the researcher and the writer.

The main results:

- **The revision loop is never taken.** Under `workflow.py` as written, the reviewer's request for a revision ends the run with no final text, so the writer never runs a second time (see Findings). The corrected routing rule gives one revision pass and always ends with a final text.
- **Researcher output.** Its results have distinct non-empty URLs and non-decreasing step indices. Each result comes from the step it is stamped with, and the first step that found a URL is kept. A configuration error discards everything, while any other failure skips only its own step. The loop in `CollectResults` computes exactly the functional `Gather`.
- **Writer references.** They are exactly the distinct non-empty URLs of the first twenty results. Over researcher output, reference `i` is the URL of prompt source `[i+1]`.
- **Legacy script.** An approved empty draft loops until the recursion limit. A non-empty draft ends the run after one pass. `--results` never reaches the researcher (see Findings).

## Model

| member | source | states |
|---|---|---|
| State.Initial | workflow.py:155-163 | the run starts with the query as its only message, empty plan, results, references, draft and final, and no revision requested |
| State.Merge | workflow.py:32-39 | merging appends the update's messages after the old ones, keeps the query, and replaces exactly the fields the update sets |
| Llm.GetLlm | providers/llm.py:48-97 | every client `get_llm` builds is configured with three retries |
| Llm.GetLlmAccepts | providers/llm.py:34-103 | `get_llm` succeeds iff the resolved provider is one of the four known ones and its required setting is present; the model is the argument, else `MODEL_NAME`, else the default |
| Llm.MissingSettingMessage | providers/llm.py:40-87 | a known provider lacking its key or URL fails with that provider's exact message |
| Llm.OllamaAlwaysConfigured | providers/llm.py:70-79 | "ollama" never fails; its base URL defaults to `http://localhost:11434/v1` and its key is the placeholder |
| Llm.CustomKeyDefault | providers/llm.py:81-97 | "custom" with a base URL succeeds, using `OPENAI_API_KEY` or the placeholder key |
| Llm.CatalogueMatchesFactory | providers/llm.py:116-143 | the model list is non-empty exactly for the providers `get_llm` knows, so for every provider it accepts; the default model heads the default provider's list |
| Search.NormalizeDefaults | providers/search.py:113-118 | a missing title, URL or snippet becomes "No title", "" or ""; a present field is copied |
| Search.Attempts | providers/search.py:94-128 | retrying never returns more than the limit; with every exception retried, it never raises; otherwise a non-request exception is raised with its own kind |
| Search.AttemptsUseThree | providers/search.py:94-128 | only the first three attempts matter: two networks that agree on them give the same outcome |
| Search.AttemptsExhausted | providers/search.py:94-128 | three failed requests in a row give an empty result, not an exception |
| Search.AttemptsFirstAnswer | providers/search.py:94-128 | the first answered attempt decides: its items, cut to the count and normalised |
| Search.AttemptsCrashEscapes | providers/search.py:94-128 | when only request errors are retried, any other exception after them escapes at once as that exception, kind and message: a `ValueError` stays a `ValueError` |
| Search.KeyedSearch | providers/search.py:80-178 | Brave and Serper never raise the missing-library error |
| Search.KeyedSearchCrash | providers/search.py:94-128 | with the key set, a non-request exception in the first attempt leaves `search` with its own kind and message, so a `ValueError` there reaches the researcher as a `ValueError` |
| Search.KeyCheckedFirst | providers/search.py:87-92 | without its API key, Brave or Serper raises `ValueError` before any request: the network does not matter |
| Search.DuckDuckGo | providers/search.py:49-77 | the search raises exactly when the library is missing, with `ImportError` and the fixed message; any other failure gives no results |
| Search.SearchClampsCount | providers/search.py:31-46 | the count is clamped into [1,10] before dispatch: an unclamped count behaves as its clamp, and keyed back ends return at most that many |
| Search.SearchResolvesProvider | providers/search.py:31-46 | no provider means `SEARCH_PROVIDER`, else "duckduckgo"; any other name raises `ValueError` "Unknown search provider" |
| Search.ListedProvidersDispatch | providers/search.py:181-213 | every listed provider is dispatched to its own backend, without keys never to the unknown-provider error, and without keys exactly those listed as needing a key fail with `ValueError` |
| PlannerAgent.PlanFromReply | agents/planner.py:71-84 | whatever the reply, the plan has between one and five steps |
| PlannerAgent.PlanFromJsonList | agents/planner.py:71-79 | a JSON list of 2-5 items is the plan item by item, each stringified, strings kept verbatim |
| PlannerAgent.PlanRejectsOtherJson | agents/planner.py:75-76 | valid JSON that is not a list, or a list of the wrong length, gives the query as the only step |
| PlannerAgent.PlanFromLines | agents/planner.py:81-84 | a non-JSON reply gives its first five stripped non-blank lines, each a stripped line of the reply, or the query when there are none |
| PlannerAgent.SingleLinePlan | agents/planner.py:81-84 | the line fallback has no lower bound: one non-blank line is a one-step plan |
| PlannerAgent.PlannerNode | agents/planner.py:37-96 | the planner sets only the plan, with one message and 1-5 steps; an unusable model gives the query with the "Planner error" warning |
| PlannerAgent.PlannerFallsBack | agents/planner.py:42-96 | the plan is the query alone when the model is unusable or its call raises, and otherwise what the reply yields |
| Dedup.KeepFirst | agents/researcher.py:59-64 | the `seen_urls` loop keeps no more elements than it is given |
| Dedup.KeepFirstSpec | agents/researcher.py:59-64 | the kept elements have distinct non-empty keys, cover every non-empty key of the input, and all come from the input |
| Dedup.KeepFirstIsFirstOccurrences | agents/writer.py:99-106 | the `seen_urls` loop equals an independent reference: the elements at the first occurrence of each non-empty key, in their original order |
| Dedup.KeepFirstOrigin | agents/researcher.py:59-64 | every kept element stands at the first occurrence of its non-empty key in the input |
| Dedup.KeepFirstUnique | agents/researcher.py:59-64 | input whose keys are already distinct and non-empty passes through unchanged |
| Dedup.KeepFirstIdempotent | agents/researcher.py:59-64 | deduplicating twice keeps the same elements as deduplicating once |
| Dedup.KeepFirstCount | agents/researcher.py:59-64 | exactly one element is kept per distinct non-empty key |
| Dedup.KeepFirstSorted | agents/researcher.py:59-64 | the loop keeps the input order, so results ordered by step stay ordered by step |
| ResearcherAgent.ResearcherNode | agents/researcher.py:40-95 | the researcher sets only the results, with one message; an empty plan gives no results and the fixed warning |
| ResearcherAgent.Gather | agents/researcher.py:49-80 | the collection aborts exactly when some step raised a configuration error, and otherwise keeps no more results than the steps found hits |
| ResearcherAgent.AddHits | agents/researcher.py:56-64 | adding one step's stamped hits to the kept results and the seen-URL set matches first-occurrence deduplication of the longer sequence |
| ResearcherAgent.CollectResults | agents/researcher.py:49-80 | the search loop aborts on the first configuration error and otherwise computes exactly the first-occurrence deduplication of all steps' stamped hits |
| ResearcherAgent.StampedProvenance | agents/researcher.py:52-64 | every stamped result comes from the search of the step it is stamped with |
| ResearcherAgent.HitStamped | agents/researcher.py:56-58 | every hit of every step appears stamped with its step before deduplication |
| ResearcherAgent.StampedSorted | agents/researcher.py:49-58 | stamped results are in non-decreasing step order |
| ResearcherAgent.CollectedResultsSpec | agents/researcher.py:49-64 | collected results have distinct non-empty URLs, non-decreasing step indices, no more entries than hits, and each comes from its step's search |
| ResearcherAgent.FirstStepKept | agents/researcher.py:59-64 | a URL found at step i is kept, stamped with a step no later than i |
| ResearcherAgent.ConfigErrorDiscards | agents/researcher.py:70-75 | a configuration error at any step discards all results, with a warning |
| ResearcherAgent.SkipIsEmpty | agents/researcher.py:77-80 | another failure at a step acts exactly like that step finding nothing |
| ResearcherAgent.NothingFound | agents/researcher.py:82-86 | searches that find nothing leave the results empty |
| ResearcherAgent.ResearcherNodeResults | agents/researcher.py:40-95 | the researcher's results are unique by URL and sorted by step; with no configuration error they are exactly what the collection loop keeps; with an empty plan, no search is consulted |
| WriterAgent.Listing | agents/writer.py:61-66 | the prompt numbers at most the first twenty results |
| WriterAgent.References | agents/writer.py:98-106 | there are at most twenty references and no more than there are results |
| WriterAgent.ReferencesSpec | agents/writer.py:98-106 | references are distinct and non-empty, at most one per listed result, and are exactly the non-empty URLs of the first twenty results |
| WriterAgent.ReferencesMatchListing | agents/writer.py:61-106 | over results with distinct non-empty URLs, reference i is the URL of source [i+1] |
| WriterAgent.WriterNode | agents/writer.py:41-121 | the writer sets only draft and references, with one message; no results give the fixed draft and no references; the draft is empty only from a reply |
| WriterAgent.WriterErrorDrafts | agents/writer.py:47-121 | with results present, an unusable model configuration gives the draft "Error: Could not initialize LLM - " followed by the error, a failed call gives "Error generating brief: " followed by the error, and neither gives references |
| WriterAgent.WriterOnReply | agents/writer.py:92-112 | references come only with a reply; the draft is then the stripped reply, stable under stripping, and empty only for an all-whitespace reply |
| ReviewerAgent.NeedsRevisionAnyCase | agents/reviewer.py:82 | any text that upper-cases to the marker, in whatever mix of cases, asks for a revision wherever it occurs in the reply |
| ReviewerAgent.ReviewerNode | agents/reviewer.py:38-111 | the reviewer sets exactly one of final and revision flag, with one message; a final text is non-empty; a revision is requested only once and only for a draft |
| ReviewerAgent.ReviewerDecision | agents/reviewer.py:41-111 | a revision iff there is a draft, the model replied with the marker and none was requested before; otherwise final is the draft, or the fixed notice without one |
| ReviewerAgent.ReviewerFinalizesAfterRevision | agents/reviewer.py:84-102 | after a revision request the reviewer always finalizes with the draft |
| Pipeline.WorkflowShape | workflow.py:93-108 | the entry is the planner, the fixed edges are planner to researcher to writer to reviewer, and only the reviewer's exit depends on the state |
| Pipeline.MainLine | workflow.py:93-108 | with nodes that do not raise, a run goes through the four stages in order and then ends or turns back as the routing predicate says |
| Pipeline.WriterPass | workflow.py:101-108 | turning back runs the writer and the reviewer once more and routes again |
| Pipeline.ReplayMessages | workflow.py:32 | replaying updates only appends their messages and never changes the query |
| Pipeline.FlattenPrefix | workflow.py:32 | more updates only extend the message history |
| Pipeline.DriveExtends | workflow.py:173-175 | a run only extends its trace, keeps the state equal to the replay of its updates, and runs no more nodes than the budget |
| Pipeline.NeverFinishes | multi_agent_research.py:244-248 | a run whose invariant every node keeps, and under which the branch always turns back, never reaches END |
| Workflow.RouteAfterReviewIsEnd | workflow.py:46-64 | after any reviewer update, `_should_revise` as written answers END |
| Workflow.InitialConfig | workflow.py:164-167 | the result count is clamped into [1,10], and an in-range count is kept |
| Workflow.DefaultRunChoices | workflow.py:114-167 | `run_research(query)` with its defaults uses the Anthropic client and the default model whatever `LLM_PROVIDER` and `MODEL_NAME` say, needs only `ANTHROPIC_API_KEY`, and searches DuckDuckGo for five results whatever `SEARCH_PROVIDER` says |
| Workflow.RunClampsCount | workflow.py:167 | a run with any count behaves as the run with the clamped count |
| Workflow.FirstFourSteps | workflow.py:93-108 | every run first executes planner, researcher, writer and reviewer once each, then routes |
| Workflow.RunVisitsEachStageOnce | workflow.py:46-64 | as written, every run succeeds after exactly four nodes, and returns the reviewer's update and five messages |
| Workflow.AsWrittenRevisionLosesFinal | workflow.py:57-62 | as written, a run ends without a final text exactly when the reviewer asked for a revision |
| Workflow.RevisingRunHasNoFinal | workflow.py:61-62 | a concrete run whose reviewer asks for a revision ends with the notice as draft and no final text |
| Workflow.IntendedSecondPass | workflow.py:71-75 | with the intended rule, a revision request leads to one more writer and reviewer pass that ends with a final text |
| Workflow.IntendedRunFinishes | workflow.py:71-75 | with the intended rule, every run ends with a final text after four or six nodes, six exactly when a revision was requested |
| Workflow.RunReferencesMatchSources | workflow.py:93-98 | at the end of a run, reference i is the URL of the prompt's source [i+1] |
| Workflow.RunTraceReplays | workflow.py:173-175 | a run's state is the merge of its updates in order; its messages are the query followed by theirs; at most 25 nodes run |
| Legacy.SelectModel | multi_agent_research.py:116-119 | the model used is always one of the three fallbacks, and a listed model is used as given |
| Legacy.GoogleSearch | multi_agent_research.py:84-112 | a search returns at most the requested number of results and never raises |
| Legacy.GoogleRequestCapped | multi_agent_research.py:89-94 | SerpAPI is asked for at most ten results, and for the requested number when it is at most ten |
| Legacy.GoogleSearchGivesUp | multi_agent_research.py:107-112 | three failed attempts of any kind give no results |
| Legacy.GoogleSearchFirstAnswer | multi_agent_research.py:95-106 | the first answer is cut to the count and normalised with the link field |
| Legacy.LegacyPlan | multi_agent_research.py:134-139 | the legacy plan has between one and five steps |
| Legacy.LegacyPlanVersusPlanner | multi_agent_research.py:134-139 | on JSON replies both planners agree; a non-JSON reply gives the query, with no line fallback |
| Legacy.LegacyPlanner | multi_agent_research.py:123-144 | the planner fails exactly when the model call raises, and otherwise sets only the plan, with one message |
| Legacy.LegacyResearcher | multi_agent_research.py:147-162 | the researcher sets only the results, with one message |
| Legacy.StampedLength | multi_agent_research.py:152-156 | the legacy results hold exactly one entry per hit |
| Legacy.TotalHitsBound | multi_agent_research.py:152-156 | at most k hits per step give at most k per step in all |
| Legacy.LegacyResultsAreAllHits | multi_agent_research.py:147-162 | every hit of every step appears stamped with its step, and there are as many results as hits |
| Legacy.LegacyKeepsDuplicates | multi_agent_research.py:152-156 | two steps that find the same URL leave two results with it |
| Legacy.PerStepBound | multi_agent_research.py:150-153 | with per-step count k, a plan of n steps yields at most n*k results |
| Legacy.IntendedResultsBound | multi_agent_research.py:265 | with the clamped `--results` value passed on, a plan of n steps yields at most n times that value, never more than n*8, and `--results 1` gives a one-step plan at most one result |
| Legacy.LegacyWriter | multi_agent_research.py:165-193 | the writer fails exactly when the model call raises, and otherwise sets only draft and references |
| Legacy.LegacyWriterOutput | multi_agent_research.py:180-193 | the draft is the reply unstripped; references are distinct, non-empty, and exactly the non-empty URLs of the first twenty results |
| Legacy.LegacyReviewer | multi_agent_research.py:196-217 | the reviewer fails exactly when the call raises, and otherwise sets one of final and revision flag, requesting a revision at most once |
| Legacy.LegacyReviewerDecision | multi_agent_research.py:208-217 | a revision iff the reply contains the marker as written and none was requested before; otherwise final is the draft, even an empty one |
| Legacy.LegacyReviewerCaseSensitive | multi_agent_research.py:208 | a lower-case marker makes the current reviewer ask for a revision but not the legacy one |
| Legacy.LegacyRoute | multi_agent_research.py:246 | the wired conditional edge turns back to the writer exactly while there is no final text and no revision request |
| Legacy.UnusedShouldRevise | multi_agent_research.py:221-227 | `should_revise`, never wired into the graph: end once there is a final text, back to the writer after a revision request, otherwise back to the writer exactly when the draft is empty |
| Legacy.RoutesAgreeOnlyIf | multi_agent_research.py:221-248 | the wired edge and the unused `should_revise` agree exactly when there is a final text, or neither a draft nor a revision request |
| Legacy.LegacyRouteAfterReview | multi_agent_research.py:244-248 | after the reviewer, the run turns back to the writer exactly when an empty draft was approved |
| Legacy.CliResults | multi_agent_research.py:265 | `--results` is clamped into [1,8], and an in-range value is kept |
| Legacy.ResultsFlagIgnored | multi_agent_research.py:150 | with `--results 1` a one-step plan still gets five results when SerpAPI answers with five |
| Legacy.LegacyMainIgnoresResults | multi_agent_research.py:254-290 | as written, the outcome of `main()` is the same for every `--results` value |
| Legacy.EmptyRepliesKeepLoop | multi_agent_research.py:165-217 | when the model always replies with empty text, no node fails and no final text or revision request appears |
| Legacy.RepliesNeverRaise | multi_agent_research.py:123-217 | a model that never raises makes every legacy node succeed |
| Legacy.EmptyDraftLoops | multi_agent_research.py:214-248 | a model that approves an empty draft keeps the run cycling until the recursion limit, and `main` exits with an error |
| Legacy.NonEmptyDraftEndsRun | multi_agent_research.py:208-248 | with a model that never fails and never writes an empty draft, the run ends after one pass, and without a final text exactly when a revision was requested |

## Left out

- Prompt texts, temperatures and `ChatAnthropic`/`ChatOpenAI` construction. The model is an oracle keyed by client (or model name) and prompt inputs, and it answers the same prompt the same way throughout a run.
- HTTP requests, SerpAPI, the DuckDuckGo library and all `time.sleep` pacing and backoff. Only attempt counts, their order and the kind of a non-request exception (`ValueError` or another) are kept: the network is an oracle per request and attempt number.
- `json.loads`: an oracle returning not-JSON, a list, or other JSON. `json.dumps` of the legacy plan message is an oracle as well.
- Environment reading: the environment is a map; `.env` loading and the legacy script's start-up `sys.exit` checks for its two keys are not modelled.
- LangGraph internals: checkpointing, thread ids and stream chunk shapes. `run_research` returns the last streamed chunk, whose shape the library defines. It is modelled as the merged final state plus the last update. The "no output" `RuntimeError` is kept as an error value.
- The runtime's recursion limit is modelled as a budget of 25 node runs; its exception becomes an error value.
- `str.upper()` is ASCII upper-casing; full Unicode case mapping is not modelled.
- app.py (Gradio UI, output formatting), `main`'s printing in the legacy script, and the re-export-only `__init__.py` files.
- Legacy.LegacyPlan: it stringifies the items of an accepted JSON list; the legacy script keeps the raw JSON values in the plan.
- Legacy.LegacyMain and Legacy.LegacyMainIntended carry no contract of their own; their behaviour is stated through Legacy.EmptyDraftLoops, Legacy.ResultsFlagIgnored, Legacy.LegacyMainIgnoresResults, Legacy.PerStepBound and Legacy.IntendedResultsBound.
- Workflow.RunResearch carries no contract of its own; its behaviour is stated through the run lemmas of `Workflow`. Its `None` arguments stand for an explicit `None` passed by the caller; the keyword defaults of `run_research` are modelled by Workflow.RunResearchDefault and stated through Workflow.DefaultRunChoices.
- Search.ListedProvidersDispatch: that a listed name never meets the unknown-provider error is promised only without keys. With a key set, the request loop may raise a `ValueError` with any message, as `search` can.
- Search.Search: its contract is stated through Search.SearchClampsCount, Search.SearchResolvesProvider and Search.ListedProvidersDispatch.

## Findings

| source | as written | input that shows it | evidently intended | confidence | as-written member | corrected member |
|---|---|---|---|---|---|---|
| workflow.py:61 | routes to the writer only when `not revised_once`, but the reviewer sets `revised_once` exactly when it asks for a revision | any run whose reviewer reply contains `NEEDS_REVISION` for a non-empty draft, e.g. a model that always answers "NEEDS_REVISION: claims lack citations" | return to the writer once after a revision request, as the revision loop drawn at workflow.py:71-75 shows, and end with a final text | medium, not executed | Workflow.AsWrittenRevisionLosesFinal | Workflow.IntendedRunFinishes |
| multi_agent_research.py:150 | the researcher always asks for 5 results per step; the `--results` value clamped at line 265 is never used | `--results 1` with SerpAPI answering five results for a one-step plan | pass the clamped `--results` value as the per-step count | high, not executed | Legacy.ResultsFlagIgnored | Legacy.IntendedResultsBound |
