/** The search gateway (providers/search.py): provider resolution, the
    result-count clamp, dispatch, API-key checks, bounded retry, truncation
    and normalisation of raw items. HTTP and the DuckDuckGo library are
    oracles; backoff sleeps are left out, attempt order is kept. */
module Search {
  import opened Wrappers
  import opened Env
  import opened Text

  /** A normalised result: `{"title", "url", "snippet"}`. */
  datatype Hit = Hit(title: string, url: string, snippet: string)

  /** One raw item of a provider's JSON answer, by field name. */
  type RawItem = map<string, string>

  datatype Backend = Brave | Serper | SerpApi

  /** What one HTTP attempt sends: the endpoint, the query, the requested
      count and the API key. */
  datatype Request = Request(backend: Backend, query: string, count: int, apiKey: string)

  /** One attempt's fate: the list of raw items at the provider's result
      path, a `requests.RequestException`, or any other exception, with its
      kind. */
  datatype Attempt = Answered(items: seq<RawItem>) | RequestFailed(error: string) | Crashed(kind: CrashKind, error: string)

  /** The network, by request and attempt number. */
  type Network = (Request, nat) -> Attempt

  /** `DDGS().text(query, max_results=k)`: its items, a missing library, or
      any other failure. */
  datatype DdgOutcome = DdgItems(items: seq<RawItem>) | DdgMissing | DdgFailed(error: string)

  type DdgLibrary = (string, nat) -> DdgOutcome

  datatype ErrorKind = ValueError | ImportError | OtherError

  /** What the request loop can raise besides a request error: a
      `ValueError` (a key that cannot be encoded into a header, a body that
      is not JSON) or another exception. `requests` is imported when the
      module loads, so no `ImportError` arises inside the loop. */
  type CrashKind = k: ErrorKind | k != ImportError witness OtherError

  /** What a call to `search` does: return hits or raise. */
  datatype SearchOutcome = Hits(hits: seq<Hit>) | Raised(kind: ErrorKind, error: string)

  /** Which raw fields hold the title, the URL and the snippet. */
  datatype Fields = Fields(title: string, url: string, snippet: string)

  const BraveFields := Fields("title", "url", "description")
  /** Serper and SerpAPI both name the URL `link`. */
  const LinkFields := Fields("title", "link", "snippet")
  const DdgFields := Fields("title", "href", "body")

  const MaxAttempts := 3
  const DefaultSearchProvider := "duckduckgo"
  const MinResults := 1
  const MaxResults := 10
  const NoTitle := "No title"

  const BraveKeyMissing :=
    "BRAVE_API_KEY required for Brave Search. Get your API key at https://brave.com/search/api/"
  const SerperKeyMissing :=
    "SERPER_API_KEY required for Serper. Get your API key at https://serper.dev"
  const DdgMissingMessage :=
    "duckduckgo-search required for DuckDuckGo provider. Install with: pip install duckduckgo-search"

  function UnknownSearchProvider(p: string): string {
    "Unknown search provider: " + p + ". Supported: duckduckgo, brave, serper"
  }

  /** `item.get(name, default)`. */
  function Field(item: RawItem, name: string, default: string): string {
    if name in item then item[name] else default
  }

  function Normalize(item: RawItem, f: Fields): Hit {
    Hit(Field(item, f.title, NoTitle), Field(item, f.url, ""), Field(item, f.snippet, ""))
  }

  function NormalizeAll(items: seq<RawItem>, f: Fields): (r: seq<Hit>)
    ensures |r| == |items|
  {
    seq(|items|, i requires 0 <= i < |items| => Normalize(items[i], f))
  }

  /** A field missing from a raw item takes the source's default. */
  lemma NormalizeDefaults(item: RawItem, f: Fields)
    ensures f.title !in item ==> Normalize(item, f).title == NoTitle
    ensures f.url !in item ==> Normalize(item, f).url == ""
    ensures f.snippet !in item ==> Normalize(item, f).snippet == ""
    ensures f.title in item ==> Normalize(item, f).title == item[f.title]
    ensures f.url in item ==> Normalize(item, f).url == item[f.url]
    ensures f.snippet in item ==> Normalize(item, f).snippet == item[f.snippet]
  {
  }

  /** `for attempt in range(3): try ... except ...` from attempt `attempt`
      on: an answer is truncated to `limit` and normalised; a request error
      is retried until the third attempt, after which the result is empty;
      any other exception is retried too when `retryAll` (the SerpAPI tool
      catches every exception) and otherwise escapes. */
  function Attempts(req: Request, net: Network, attempt: nat, limit: int, f: Fields, retryAll: bool): (r: SearchOutcome)
    requires attempt < MaxAttempts
    ensures retryAll ==> r.Hits?
    ensures r.Hits? && limit >= 0 ==> |r.hits| <= limit
    decreases MaxAttempts - attempt
  {
    match net(req, attempt)
    case Answered(items) => Hits(NormalizeAll(PyTake(items, limit), f))
    case RequestFailed(_) =>
      if attempt == MaxAttempts - 1 then Hits([])
      else Attempts(req, net, attempt + 1, limit, f, retryAll)
    case Crashed(kind, e) =>
      if !retryAll then Raised(kind, e)
      else if attempt == MaxAttempts - 1 then Hits([])
      else Attempts(req, net, attempt + 1, limit, f, retryAll)
  }

  /** At most three attempts: two networks that answer the first three
      attempts of this request alike give the same outcome. */
  lemma {:induction false} AttemptsUseThree(req: Request, net1: Network, net2: Network, attempt: nat, limit: int, f: Fields, retryAll: bool)
    requires attempt < MaxAttempts
    requires forall a :: attempt <= a < MaxAttempts ==> net1(req, a) == net2(req, a)
    ensures Attempts(req, net1, attempt, limit, f, retryAll) == Attempts(req, net2, attempt, limit, f, retryAll)
    decreases MaxAttempts - attempt
  {
    if attempt < MaxAttempts - 1 {
      AttemptsUseThree(req, net1, net2, attempt + 1, limit, f, retryAll);
    }
  }

  /** Three failures in a row give an empty result, not an exception;
      without `retryAll` only request errors count as such failures. */
  lemma {:induction false} AttemptsExhausted(req: Request, net: Network, attempt: nat, limit: int, f: Fields, retryAll: bool)
    requires attempt < MaxAttempts
    requires forall a :: attempt <= a < MaxAttempts ==>
      net(req, a).RequestFailed? || (retryAll && net(req, a).Crashed?)
    ensures Attempts(req, net, attempt, limit, f, retryAll) == Hits([])
    decreases MaxAttempts - attempt
  {
    if attempt < MaxAttempts - 1 {
      AttemptsExhausted(req, net, attempt + 1, limit, f, retryAll);
    }
  }

  /** The first answered attempt decides the result, provided every earlier
      attempt failed in a way that is retried. */
  lemma {:induction false} AttemptsFirstAnswer(req: Request, net: Network, attempt: nat, answered: nat, limit: int, f: Fields, retryAll: bool)
    requires attempt <= answered < MaxAttempts
    requires net(req, answered).Answered?
    requires forall a :: attempt <= a < answered ==>
      net(req, a).RequestFailed? || (retryAll && net(req, a).Crashed?)
    ensures Attempts(req, net, attempt, limit, f, retryAll)
      == Hits(NormalizeAll(PyTake(net(req, answered).items, limit), f))
    decreases answered - attempt
  {
    if attempt < answered {
      AttemptsFirstAnswer(req, net, attempt + 1, answered, limit, f, retryAll);
    }
  }

  /** Without `retryAll`, an exception other than a request error escapes
      at once as that exception, provided every earlier attempt was a
      request error. */
  lemma {:induction false} AttemptsCrashEscapes(req: Request, net: Network, attempt: nat, c: nat, limit: int, f: Fields,
                                                kind: CrashKind, e: string)
    requires attempt <= c < MaxAttempts
    requires net(req, c) == Crashed(kind, e)
    requires forall a :: attempt <= a < c ==> net(req, a).RequestFailed?
    ensures Attempts(req, net, attempt, limit, f, false) == Raised(kind, e)
    decreases c - attempt
  {
    if attempt < c {
      AttemptsCrashEscapes(req, net, attempt + 1, c, limit, f, kind, e);
    }
  }

  /** `_search_brave` and `_search_serper`: the API key is checked before
      any request, then the request is attempted up to three times. */
  function KeyedSearch(backend: Backend, query: string, k: int, env: Env, net: Network): (r: SearchOutcome)
    requires backend != SerpApi
    ensures r.Raised? ==> r.kind != ImportError
  {
    var keyName := if backend == Brave then "BRAVE_API_KEY" else "SERPER_API_KEY";
    var key := Getenv(env, keyName);
    if !Truthy(key) then
      Raised(ValueError, if backend == Brave then BraveKeyMissing else SerperKeyMissing)
    else
      var fields := if backend == Brave then BraveFields else LinkFields;
      Attempts(Request(backend, query, k, key.value), net, 0, k, fields, false)
  }

  /** `_search_duckduckgo`: a missing library is re-raised as `ImportError`,
      any other failure yields no results. */
  function DuckDuckGo(query: string, k: nat, ddg: DdgLibrary): (r: SearchOutcome)
    ensures r.Raised? <==> ddg(query, k).DdgMissing?
    ensures r.Raised? ==> r == Raised(ImportError, DdgMissingMessage)
    ensures ddg(query, k).DdgFailed? ==> r == Hits([])
  {
    match ddg(query, k)
    case DdgItems(items) => Hits(NormalizeAll(items, DdgFields))
    case DdgMissing => Raised(ImportError, DdgMissingMessage)
    case DdgFailed(_) => Hits([])
  }

  /** `search(query, provider, num_results)`. */
  function Search(query: string, provider: Option<string>, numResults: int, env: Env, net: Network, ddg: DdgLibrary): (r: SearchOutcome)
  {
    var p := provider.GetOr(GetenvOr(env, "SEARCH_PROVIDER", DefaultSearchProvider));
    var k := Clamp(numResults, MinResults, MaxResults);
    if p == "duckduckgo" then DuckDuckGo(query, k, ddg)
    else if p == "brave" then KeyedSearch(Brave, query, k, env, net)
    else if p == "serper" then KeyedSearch(Serper, query, k, env, net)
    else Raised(ValueError, UnknownSearchProvider(p))
  }

  /** The count is clamped into [1, 10] before dispatch: clamping it first
      changes nothing, and the keyed providers return at most that many. */
  lemma SearchClampsCount(query: string, provider: Option<string>, numResults: int, env: Env, net: Network, ddg: DdgLibrary)
    ensures Search(query, provider, numResults, env, net, ddg)
      == Search(query, provider, Clamp(numResults, MinResults, MaxResults), env, net, ddg)
    ensures var p := provider.GetOr(GetenvOr(env, "SEARCH_PROVIDER", DefaultSearchProvider));
      var r := Search(query, provider, numResults, env, net, ddg);
      (p == "brave" || p == "serper") && r.Hits? ==> |r.hits| <= Clamp(numResults, MinResults, MaxResults)
  {
  }

  /** No provider means the `SEARCH_PROVIDER` variable, else DuckDuckGo;
      an unknown name raises `ValueError` whatever the network does. */
  lemma SearchResolvesProvider(query: string, p: string, numResults: int, env: Env, net: Network, ddg: DdgLibrary)
    ensures Search(query, None, numResults, env, net, ddg)
      == Search(query, Some(GetenvOr(env, "SEARCH_PROVIDER", DefaultSearchProvider)), numResults, env, net, ddg)
    ensures p !in ["duckduckgo", "brave", "serper"] ==>
      Search(query, Some(p), numResults, env, net, ddg) == Raised(ValueError, UnknownSearchProvider(p))
  {
  }

  /** Without the provider's API key no request is made: the outcome is the
      key error for every network. */
  lemma KeyCheckedFirst(backend: Backend, query: string, k: int, env: Env, net1: Network, net2: Network)
    requires backend != SerpApi
    requires !Truthy(Getenv(env, if backend == Brave then "BRAVE_API_KEY" else "SERPER_API_KEY"))
    ensures KeyedSearch(backend, query, k, env, net1) == KeyedSearch(backend, query, k, env, net2)
    ensures KeyedSearch(backend, query, k, env, net1).Raised?
    ensures KeyedSearch(backend, query, k, env, net1).kind == ValueError
  {
  }

  /** With the key set, an exception other than a request error in the
      first attempt leaves `search` as that exception: a `ValueError` there
      is raised as a `ValueError`, exactly like a missing key. */
  lemma KeyedSearchCrash(backend: Backend, query: string, k: int, env: Env, net: Network)
    requires backend != SerpApi
    requires Truthy(Getenv(env, if backend == Brave then "BRAVE_API_KEY" else "SERPER_API_KEY"))
    requires var key := Getenv(env, if backend == Brave then "BRAVE_API_KEY" else "SERPER_API_KEY");
      net(Request(backend, query, k, key.value), 0).Crashed?
    ensures var key := Getenv(env, if backend == Brave then "BRAVE_API_KEY" else "SERPER_API_KEY");
      var a := net(Request(backend, query, k, key.value), 0);
      KeyedSearch(backend, query, k, env, net) == Raised(a.kind, a.error)
  {
  }

  /** One entry of `get_available_providers()`. */
  datatype ProviderInfo = ProviderInfo(
    name: string, displayName: string, cost: string, monthlyLimit: string,
    requiresApiKey: bool, description: string)

  function AvailableProviders(): seq<ProviderInfo> {
    [ ProviderInfo("duckduckgo", "DuckDuckGo (Free)", "Free", "Unlimited", false,
                   "No API key needed, unlimited searches"),
      ProviderInfo("brave", "Brave Search (2K free/month)", "Free tier: 2,000/month", "2,000", true,
                   "High quality results, 2K free queries/month"),
      ProviderInfo("serper", "Serper.dev (2.5K free/month)", "Free tier: 2,500/month", "2,500", true,
                   "Google-powered results, 2.5K free queries/month") ]
  }

  /** The catalogue agrees with `search`: every listed name is dispatched
      to its own backend (so, without keys, never to the unknown-provider
      error), and a provider is marked as needing an API key exactly when,
      in an empty environment, `search` raises `ValueError` for it. */
  lemma ListedProvidersDispatch(i: int, query: string, numResults: int, env: Env, net: Network, ddg: DdgLibrary)
    requires 0 <= i < |AvailableProviders()|
    ensures var p := AvailableProviders()[i];
      var k := Clamp(numResults, MinResults, MaxResults);
      Search(query, Some(p.name), numResults, env, net, ddg)
        == if p.name == "duckduckgo" then DuckDuckGo(query, k, ddg)
           else KeyedSearch(if p.name == "brave" then Brave else Serper, query, k, env, net)
    ensures var p := AvailableProviders()[i];
      Search(query, Some(p.name), numResults, map[], net, ddg) != Raised(ValueError, UnknownSearchProvider(p.name))
    ensures var p := AvailableProviders()[i];
      var r := Search(query, Some(p.name), numResults, map[], net, ddg);
      p.requiresApiKey <==> r.Raised? && r.kind == ValueError
  {
    var p := AvailableProviders()[i];
    var k := Clamp(numResults, MinResults, MaxResults);
    if p.name != "duckduckgo" {
      var b := if p.name == "brave" then Brave else Serper;
      var r := Search(query, Some(p.name), numResults, map[], net, ddg);
      assert r == KeyedSearch(b, query, k, map[], net);
      assert r.error == BraveKeyMissing || r.error == SerperKeyMissing;
      assert UnknownSearchProvider(p.name)[0] == 'U';
    }
  }
}
