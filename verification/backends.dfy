/**
 * The backend registry and everything the chat client builds before it talks to
 * the network: request headers, the chat endpoint, the payload, the probe request,
 * and the window of recent turns the chat page sends along.
 */
module Backends {
  import opened Wrappers
  import opened Text

  const LMStudio := "LM Studio"
  const Ollama := "Ollama"
  const HuggingFace := "Hugging Face"

  /** The Hugging Face router URL, which is already a full completions endpoint. */
  const HuggingFaceUrl := "https://router.huggingface.co/novita/v3/openai/chat/completions"

  /** The model named in the Hugging Face probe request. */
  const ProbeModel := "minimaxai/minimax-m1-80k"

  /**
   * One registry entry: where the backend usually listens, whether it wants a key, its
   * token cap, and the models the settings page offers (`available_models`, empty when
   * the entry has none).
   */
  datatype BackendConfig = BackendConfig(
    defaultUrl: string,
    needsApiKey: bool,
    maxTokens: nat,
    models: seq<string>)

  /** The registry lookup; `None` is the `KeyError` of an unregistered name. */
  function Lookup(backend: string): (r: Option<BackendConfig>)
    ensures r.Some? <==> backend == LMStudio || backend == Ollama || backend == HuggingFace
    ensures r.Some? ==> r.value.defaultUrl != "" && r.value.maxTokens > 0
    ensures r.Some? ==> (r.value.needsApiKey <==> backend == HuggingFace)
    ensures r.Some? ==> (r.value.models != [] <==> backend == HuggingFace)
    ensures backend == HuggingFace ==> ProbeModel in r.value.models
  {
    if backend == LMStudio then
      Some(BackendConfig("http://127.0.0.1:1234/v1", false, 128000, []))
    else if backend == Ollama then
      Some(BackendConfig("http://127.0.0.1:11434", false, 128000, []))
    else if backend == HuggingFace then
      Some(BackendConfig(HuggingFaceUrl, true, 40000, [ProbeModel, "minimaxai/minimax-text-01"]))
    else
      None
  }

  datatype Header = Header(name: string, value: string)

  predicate HasHeader(headers: seq<Header>, name: string) {
    exists k :: 0 <= k < |headers| && headers[k].name == name
  }

  /**
   * The headers of both the probe and the chat request: always a JSON content type,
   * and a bearer credential only for Hugging Face and only when a key was given.
   */
  function Headers(backend: string, apiKey: string): (r: seq<Header>)
    ensures |r| == (if apiKey != "" && backend == HuggingFace then 2 else 1)
    ensures r[0] == Header("Content-Type", "application/json")
    ensures HasHeader(r, "Authorization") <==> apiKey != "" && backend == HuggingFace
    ensures forall k :: 0 <= k < |r| && r[k].name == "Authorization" ==> r[k].value == "Bearer " + apiKey
  {
    var base := [Header("Content-Type", "application/json")];
    if apiKey != "" && backend == HuggingFace then
      var r := base + [Header("Authorization", "Bearer " + apiKey)];
      assert r[1].name == "Authorization";
      r
    else
      base
  }

  /**
   * The chat endpoint: Ollama's chat path, the Hugging Face URL as given, and the
   * OpenAI-style completions path for every other backend.
   */
  function Endpoint(backend: string, url: string): (r: string)
    ensures StartsWith(r, url)
    ensures backend == Ollama ==> r[|url|..] == "/api/chat"
    ensures backend == HuggingFace ==> r == url
    ensures backend != Ollama && backend != HuggingFace ==> r[|url|..] == "/chat/completions"
  {
    if backend == Ollama then url + "/api/chat"
    else if backend == HuggingFace then url
    else url + "/chat/completions"
  }

  /** For a fixed backend, different base URLs never give the same endpoint. */
  lemma EndpointDeterminesUrl(backend: string, url1: string, url2: string)
    requires Endpoint(backend, url1) == Endpoint(backend, url2)
    ensures url1 == url2
  {
    var e := Endpoint(backend, url1);
    var suffix := if backend == Ollama then "/api/chat"
                  else if backend == HuggingFace then ""
                  else "/chat/completions";
    assert e == url1 + suffix && e == url2 + suffix;
    assert url1 == e[..|e| - |suffix|] == url2;
  }

  /** The token budget sent: the user's context length, but never above the backend's cap. */
  function MaxTokens(contextLength: int, config: BackendConfig): (r: int)
    ensures r <= contextLength && r <= config.maxTokens
    ensures r == contextLength || r == config.maxTokens
  {
    if contextLength <= config.maxTokens then contextLength else config.maxTokens
  }

  datatype Role = SystemRole | UserRole | AssistantRole

  /** One conversation turn as it travels in a request. */
  datatype Message = Message(role: Role, content: string)

  /** The message list: the system turn, then the recent history unchanged, then the new user turn. */
  function ChatMessages(systemPrompt: string, context: seq<Message>, prompt: string): (r: seq<Message>)
    ensures |r| == |context| + 2
    ensures r[0] == Message(SystemRole, systemPrompt)
    ensures r[1..|r| - 1] == context
    ensures r[|r| - 1] == Message(UserRole, prompt)
  {
    [Message(SystemRole, systemPrompt)] + context + [Message(UserRole, prompt)]
  }

  /**
   * The chat settings the page holds: the system prompt, sampling parameters, and the
   * requested context length. The sampling parameters are passed through untouched.
   */
  datatype Settings = Settings(systemPrompt: string, temperature: real, topP: real, contextLength: int)

  datatype Payload = Payload(
    model: string,
    messages: seq<Message>,
    maxTokens: int,
    temperature: real,
    topP: real,
    stream: bool)

  datatype ChatRequest = ChatRequest(endpoint: string, headers: seq<Header>, payload: Payload)

  /**
   * The POST the chat client issues, or `None` when the backend is not in the registry
   * (the token-cap lookup fails before anything is sent).
   */
  function BuildRequest(
    backend: string, url: string, model: string, prompt: string,
    context: seq<Message>, apiKey: string, settings: Settings): (r: Option<ChatRequest>)
    ensures r.None? <==> Lookup(backend).None?
    ensures r.Some? ==>
      && r.value.endpoint == Endpoint(backend, url)
      && r.value.headers == Headers(backend, apiKey)
      && r.value.payload.model == model
      && r.value.payload.messages == ChatMessages(settings.systemPrompt, context, prompt)
      && r.value.payload.maxTokens == MaxTokens(settings.contextLength, Lookup(backend).value)
      && r.value.payload.maxTokens <= Lookup(backend).value.maxTokens
      && r.value.payload.maxTokens <= settings.contextLength
      && r.value.payload.temperature == settings.temperature
      && r.value.payload.topP == settings.topP
      && r.value.payload.stream
  {
    match Lookup(backend)
    case None => None
    case Some(config) =>
      Some(ChatRequest(
        Endpoint(backend, url),
        Headers(backend, apiKey),
        Payload(
          model,
          ChatMessages(settings.systemPrompt, context, prompt),
          MaxTokens(settings.contextLength, config),
          settings.temperature,
          settings.topP,
          true)))
  }

  /** The bearer header follows the registry's key flag for every registered backend. */
  lemma BearerFollowsRegistry(backend: string, apiKey: string)
    requires Lookup(backend).Some?
    ensures HasHeader(Headers(backend, apiKey), "Authorization") <==> apiKey != "" && Lookup(backend).value.needsApiKey
  {
  }

  datatype Verb = Get | Post

  /** The fixed body of the Hugging Face probe: one user turn "ping", ten tokens. */
  datatype PingPayload = PingPayload(model: string, messages: seq<Message>, maxTokens: int)

  datatype ProbeRequest = ProbeRequest(verb: Verb, url: string, headers: seq<Header>, body: Option<PingPayload>)

  /**
   * What one probe attempt sends: Hugging Face only answers POST, so it gets a minimal
   * chat payload; every other backend gets a plain GET of the URL.
   */
  function ProbeRequestFor(url: string, backend: string, apiKey: string): (r: ProbeRequest)
    ensures r.url == url && r.headers == Headers(backend, apiKey)
    ensures r.verb == Post <==> backend == HuggingFace
    ensures r.body.Some? <==> r.verb == Post
    ensures r.body.Some? ==>
      && r.body.value.model == ProbeModel
      && r.body.value.maxTokens == 10
      && r.body.value.messages == [Message(UserRole, "ping")]
  {
    if backend == HuggingFace then
      ProbeRequest(Post, url, Headers(backend, apiKey), Some(PingPayload(ProbeModel, [Message(UserRole, "ping")], 10)))
    else
      ProbeRequest(Get, url, Headers(backend, apiKey), None)
  }

  /**
   * The history sent with a new turn: Python's `messages[-6:-1]`, i.e. up to five turns
   * immediately before the newest one (which is the user turn just appended).
   */
  function HistoryWindow(transcript: seq<Message>): (r: seq<Message>)
    ensures |transcript| <= 1 ==> r == []
    ensures |transcript| >= 1 ==> |r| == (if |transcript| - 1 < 5 then |transcript| - 1 else 5)
    ensures |transcript| >= 1 ==> r + [transcript[|transcript| - 1]] == transcript[|transcript| - 1 - |r|..]
  {
    var n := |transcript|;
    var lo := if n >= 6 then n - 6 else 0;
    var hi := if n >= 1 then n - 1 else 0;
    transcript[lo..hi]
  }
}
