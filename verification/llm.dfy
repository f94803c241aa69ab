/** The language-model gateway (providers/llm.py): provider and credential
    validation as a pure function of the environment, the model catalogue,
    and the shape of the calls the agents make. The model's reply itself is
    an oracle. */
module Llm {
  import opened Wrappers
  import opened Env

  const DefaultProvider := "anthropic"
  const DefaultModel := "claude-sonnet-4-5-20250929"
  const OllamaDefaultUrl := "http://localhost:11434/v1"
  const PlaceholderKey := "not-needed"
  /** `max_retries` handed to every client object. */
  const ClientRetries := 3

  const KnownProviders := ["anthropic", "openai", "ollama", "custom"]

  datatype Api = AnthropicChat | OpenAiChat

  /** The configured client `get_llm` would construct (temperature left out). */
  datatype LlmClient = LlmClient(api: Api, model: string, apiKey: string, baseUrl: Option<string>, maxRetries: nat)

  /** One numbered entry of the writer's source listing. */
  datatype Source = Source(number: nat, title: string, url: string, snippet: string)

  /** The three prompts the agents send, by their variable inputs. */
  datatype Prompt =
    | PlanPrompt(query: string)
    | WritePrompt(query: string, sources: seq<Source>)
    | ReviewPrompt(draft: string)

  /** `chain.invoke(...)`: the reply text, or the text of the exception it raised. */
  datatype Completion = Reply(text: string) | Raised(error: string)

  type Complete = (LlmClient, Prompt) -> Completion

  const AnthropicKeyMissing :=
    "ANTHROPIC_API_KEY required for provider 'anthropic'. Get your API key at https://console.anthropic.com"
  const OpenAiKeyMissing :=
    "OPENAI_API_KEY required for provider 'openai'. Get your API key at https://platform.openai.com"
  const CustomUrlMissing :=
    "OPENAI_BASE_URL required for provider 'custom'. Set it to your self-hosted endpoint (e.g., http://your-server:8000/v1)"

  function UnknownProvider(p: string): string {
    "Unknown provider: " + p + ". Supported: anthropic, openai, ollama, custom"
  }

  /** `get_llm(provider, model_name)`: the client, or the `ValueError` text. */
  function GetLlm(provider: Option<string>, modelName: Option<string>, env: Env): (r: Result<LlmClient, string>)
    ensures r.Success? ==> r.value.maxRetries == ClientRetries
  {
    var p := provider.GetOr(GetenvOr(env, "LLM_PROVIDER", DefaultProvider));
    var model := modelName.GetOr(GetenvOr(env, "MODEL_NAME", DefaultModel));
    if p == "anthropic" then
      var key := Getenv(env, "ANTHROPIC_API_KEY");
      if !Truthy(key) then Failure(AnthropicKeyMissing)
      else Success(LlmClient(AnthropicChat, model, key.value, None, ClientRetries))
    else if p == "openai" then
      var key := Getenv(env, "OPENAI_API_KEY");
      if !Truthy(key) then Failure(OpenAiKeyMissing)
      else Success(LlmClient(OpenAiChat, model, key.value, None, ClientRetries))
    else if p == "ollama" then
      var url := GetenvOr(env, "OLLAMA_BASE_URL", OllamaDefaultUrl);
      Success(LlmClient(OpenAiChat, model, PlaceholderKey, Some(url), ClientRetries))
    else if p == "custom" then
      var url := Getenv(env, "OPENAI_BASE_URL");
      if !Truthy(url) then Failure(CustomUrlMissing)
      else
        var key := GetenvOr(env, "OPENAI_API_KEY", PlaceholderKey);
        Success(LlmClient(OpenAiChat, model, key, Some(url.value), ClientRetries))
    else
      Failure(UnknownProvider(p))
  }

  /** The provider `get_llm` resolves to. */
  function ResolvedProvider(provider: Option<string>, env: Env): string {
    provider.GetOr(GetenvOr(env, "LLM_PROVIDER", DefaultProvider))
  }

  /** The credential or endpoint a provider cannot do without, if any. */
  function RequiredSetting(p: string): Option<string> {
    if p == "anthropic" then Some("ANTHROPIC_API_KEY")
    else if p == "openai" then Some("OPENAI_API_KEY")
    else if p == "custom" then Some("OPENAI_BASE_URL")
    else None
  }

  /** `get_llm` succeeds exactly for a known provider whose required
      setting, if it has one, is set and non-empty; the client then uses the
      requested model or the `MODEL_NAME` default. */
  lemma GetLlmAccepts(provider: Option<string>, modelName: Option<string>, env: Env)
    ensures var p := ResolvedProvider(provider, env);
      var r := GetLlm(provider, modelName, env);
      && (r.Success? <==>
            (p in KnownProviders
             && (RequiredSetting(p).Some? ==> Truthy(Getenv(env, RequiredSetting(p).value)))))
      && (r.Success? ==> r.value.model == modelName.GetOr(GetenvOr(env, "MODEL_NAME", DefaultModel)))
  {
  }

  /** A missing credential is reported with its own message, never as an
      unknown provider. */
  lemma MissingSettingMessage(provider: Option<string>, modelName: Option<string>, env: Env)
    requires var p := ResolvedProvider(provider, env);
      RequiredSetting(p).Some? && !Truthy(Getenv(env, RequiredSetting(p).value))
    ensures var p := ResolvedProvider(provider, env);
      GetLlm(provider, modelName, env)
        == Failure(if p == "anthropic" then AnthropicKeyMissing
                   else if p == "openai" then OpenAiKeyMissing
                   else CustomUrlMissing)
  {
  }

  /** Ollama never fails on configuration; its endpoint defaults to the
      local server and it sends a placeholder key. */
  lemma OllamaAlwaysConfigured(modelName: Option<string>, env: Env)
    ensures var r := GetLlm(Some("ollama"), modelName, env);
      && r.Success?
      && r.value.baseUrl == Some(GetenvOr(env, "OLLAMA_BASE_URL", OllamaDefaultUrl))
      && r.value.apiKey == PlaceholderKey
  {
  }

  /** A custom endpoint borrows `OPENAI_API_KEY` when set, else the placeholder. */
  lemma CustomKeyDefault(modelName: Option<string>, env: Env)
    requires Truthy(Getenv(env, "OPENAI_BASE_URL"))
    ensures var r := GetLlm(Some("custom"), modelName, env);
      r.Success? && r.value.apiKey == GetenvOr(env, "OPENAI_API_KEY", PlaceholderKey)
  {
  }

  /** `get_available_models(provider)`. */
  function AvailableModels(provider: string): seq<string> {
    if provider == "anthropic" then
      ["claude-sonnet-4-5-20250929", "claude-sonnet-4-20250514", "claude-3-7-sonnet-20250219",
       "claude-3-5-sonnet-20241022", "claude-3-opus-20240229"]
    else if provider == "openai" then
      ["gpt-4o", "gpt-4o-mini", "gpt-4-turbo", "gpt-3.5-turbo"]
    else if provider == "ollama" then
      ["llama3.1:70b", "llama3.1:8b", "mistral:latest", "mixtral:latest", "phi3:medium", "gemma2:27b"]
    else if provider == "custom" then
      ["custom-model"]
    else []
  }

  /** The catalogue and the factory agree: a provider has listed models
      exactly when `get_llm` knows it, so any provider `get_llm` accepts has
      a non-empty list, and the default model heads the default provider's. */
  lemma CatalogueMatchesFactory(p: string, modelName: Option<string>, env: Env)
    ensures AvailableModels(p) != [] <==> p in KnownProviders
    ensures GetLlm(Some(p), modelName, env).Success? ==> AvailableModels(p) != []
    ensures AvailableModels(DefaultProvider)[0] == DefaultModel
  {
  }
}
