/**
 * The streaming chat client (`generate_response`): the POST it issues, and how it turns
 * the HTTP status and the response body, read one line at a time, into the ordered
 * text fragments its caller receives, plus the entries it appends to the error log.
 *
 * The network is a parameter: an `Exchange` says whether the POST connected, which
 * status came back, and what each `readline()` returned. JSON decoding is a parameter
 * too: `Parsers` says what `json.loads` and the field lookups make of a given text, so
 * the same text always decodes the same way.
 */
module Stream {
  import opened Wrappers
  import opened Text
  import opened Backends

  /** What decoding one non-blank NDJSON line yields. */
  datatype NdChunk =
    | NdMalformed
      // `json.loads` raised `JSONDecodeError`
    | NdObject(content: string, done: bool)
      // an object; `content` is `message.content`, "" when it is missing or falsy (null, 0, false),
      // and `done` the truthiness of `done`
    | NdCrash(detail: string)
      // valid JSON whose lookups raise (not an object, or `message` not an object)

  /** What decoding one non-empty SSE `data: ` payload yields. */
  datatype SseChunk =
    | SseMalformed
      // `json.loads` raised `JSONDecodeError`
    | SseDelta(content: string)
      // `choices[0].delta.content`, "" when a level is missing or the content is falsy (null, 0, false)
    | SseCrash(detail: string)
      // valid JSON whose lookups raise (not an object, `choices` empty or not a list, ...)

  datatype Parsers = Parsers(ndjson: string -> NdChunk, sse: string -> SseChunk)

  /** An exception: an `aiohttp.ClientError`, or anything else (caught by the generic handler). */
  datatype Fault = ClientFault(msg: string) | OtherFault(msg: string)

  /**
   * One `readline()`: the decoded line, terminator included, or the exception it raised
   * (a transport error, or a line that is not valid UTF-8). The end of the body is the
   * end of the sequence, since `readline()` returns no bytes only there.
   */
  datatype Read = Line(text: string) | Broken(fault: Fault)

  /** How the network answered the POST. `errorText` is the body text of a non-200 reply, if it could be read. */
  datatype Exchange =
    | Unreachable(fault: Fault)
    | Answered(status: nat, body: seq<Read>, errorText: Option<string>)

  const DataPrefix := "data: "
  const DoneMarker := "[DONE]"
  const EmptySentinel := "[Empty response]"
  /** The generic exception handler's fragment: who met the problem, what it was, and where its details went. */
  const UnexpectedSubject := "Sophia encountered an "
  const UnexpectedProblem := "unexpected problem. "
  const UnexpectedNote := "Details have been logged."
  const UnexpectedFragment := UnexpectedSubject + UnexpectedProblem + UnexpectedNote

  /** `if content: yield content`. */
  function Yield(content: string): seq<string> {
    if content == "" then [] else [content]
  }

  /** The stripped payload of a stripped SSE line that starts with `data: `; `None` for any other line. */
  function DataPayload(line: string): (r: Option<string>)
    ensures r.Some? <==> StartsWith(line, DataPrefix)
    ensures r.Some? ==> r.value == Strip(line[|DataPrefix|..])
    ensures r.Some? ==> Strip(r.value) == r.value
  {
    if StartsWith(line, DataPrefix) then
      StripIdempotent(line[|DataPrefix|..]);
      Some(Strip(line[|DataPrefix|..]))
    else None
  }

  /** The payload of `data: ` followed by any text `p` is `p` stripped. */
  lemma DataPayloadOfPrefixed(p: string)
    ensures DataPayload(DataPrefix + p) == Some(Strip(p))
  {
    assert (DataPrefix + p)[..|DataPrefix|] == DataPrefix;
    assert (DataPrefix + p)[|DataPrefix|..] == p;
  }

  /** What the read loop does with one line: go on (possibly yielding), stop after it, or raise. */
  datatype Step = Continue(emit: seq<string>) | Finish(emit: seq<string>) | Crash(detail: string)

  /** A line yields nothing, or one non-empty fragment. */
  predicate SingleYield(step: Step) {
    !step.Crash? ==> step.emit == [] || (|step.emit| == 1 && step.emit[0] != "")
  }

  /** One stripped NDJSON line (Ollama). */
  function OllamaStep(parsers: Parsers, line: string): (r: Step)
    ensures SingleYield(r)
  {
    if line == "" then Continue([])
    else
      match parsers.ndjson(line)
      case NdMalformed => Continue([])
      case NdObject(content, done) => if done then Finish(Yield(content)) else Continue(Yield(content))
      case NdCrash(detail) => Crash(detail)
  }

  /** One stripped SSE line (LM Studio, Hugging Face and any other backend). */
  function SseStep(parsers: Parsers, line: string): (r: Step)
    ensures SingleYield(r)
  {
    match DataPayload(line)
    case None => Continue([])
    case Some(data) =>
      if data == DoneMarker then Finish([])
      else if data == "" then Continue([])
      else
        match parsers.sse(data)
        case SseMalformed => Continue([])
        case SseDelta(content) => Continue(Yield(content))
        case SseCrash(detail) => Crash(detail)
  }

  /** One line as read, before stripping. */
  function LineStep(backend: string, parsers: Parsers, text: string): (r: Step)
    ensures SingleYield(r)
  {
    var line := Strip(text);
    if backend == Ollama then OllamaStep(parsers, line) else SseStep(parsers, line)
  }

  /** Why the read loop ended: the body ran out, a terminal line was read, or an exception escaped. */
  datatype Stop = Exhausted | Marker | Aborted(fault: Fault)

  datatype Loop = Loop(fragments: seq<string>, stop: Stop)

  /** The line rule of a backend: NDJSON for Ollama, SSE for every other backend. */
  function LineRule(backend: string, parsers: Parsers): string -> Step {
    text => LineStep(backend, parsers, text)
  }

  /** The `while True` loop over a 200 body under a line rule: the fragments yielded and why it stopped. */
  function ReadLoop(rule: string -> Step, body: seq<Read>): Loop {
    if |body| == 0 then Loop([], Exhausted)
    else
      match body[0]
      case Broken(fault) => Loop([], Aborted(fault))
      case Line(text) =>
        match rule(text)
        case Crash(detail) => Loop([], Aborted(OtherFault(detail)))
        case Finish(emit) => Loop(emit, Marker)
        case Continue(emit) =>
          var rest := ReadLoop(rule, body[1..]);
          Loop(emit + rest.fragments, rest.stop)
  }

  /** How a call ended, each call ending exactly one way. */
  datatype End = Completed | EmptyBody | Rejected(status: nat) | Failed(fault: Fault)

  /** An entry appended to the session's error log. */
  datatype LogEntry = ApiError(status: nat, text: string) | NetworkError(msg: string) | Unhandled(msg: string)

  /** The fragments yielded, in order, the error-log entries appended, and how the call ended. */
  datatype Outcome = Outcome(fragments: seq<string>, log: seq<LogEntry>, end: End)

  /**
   * `str()` of the `KeyError` for a missing key: the key between single quotes (Python's
   * `repr` of a string without quotes or backslashes in it).
   */
  function KeyErrorText(key: string): string {
    "'" + key + "'"
  }

  /** The text of a log entry (the traceback that follows an unhandled exception is not modelled). */
  function LogText(entry: LogEntry): string {
    match entry
    case ApiError(status, text) => "API Error: Status " + NatToString(status) + " - " + text
    case NetworkError(msg) => "Network error: " + msg
    case Unhandled(msg) => "Unhandled exception in generate_response: " + msg
  }

  const StatusPrefix := "Error from AI provider (Status "
  const StatusSuffix := "). Check logs."

  /** The one fragment a non-200 reply yields. */
  function StatusFragment(status: nat): string {
    StatusPrefix + NatToString(status) + StatusSuffix
  }

  /** The last fragment of a call an exception ended. */
  function FaultFragment(fault: Fault): string {
    match fault
    case ClientFault(msg) => "Network error: " + msg + ". Please check connection."
    case OtherFault(_) => UnexpectedFragment
  }

  function FaultLog(fault: Fault): LogEntry {
    match fault
    case ClientFault(msg) => NetworkError(msg)
    case OtherFault(msg) => Unhandled(msg)
  }

  /** What a registered backend's exchange turns into. */
  function Respond(backend: string, parsers: Parsers, exchange: Exchange): Outcome {
    match exchange
    case Unreachable(fault) => Outcome([FaultFragment(fault)], [FaultLog(fault)], Failed(fault))
    case Answered(status, body, errorText) =>
      if status != 200 then
        Outcome([StatusFragment(status)], [ApiError(status, errorText.GetOr(""))], Rejected(status))
      else
        var loop := ReadLoop(LineRule(backend, parsers), body);
        match loop.stop
        case Aborted(fault) => Outcome(loop.fragments + [FaultFragment(fault)], [FaultLog(fault)], Failed(fault))
        case Marker => Outcome(loop.fragments, [], Completed)
        case Exhausted =>
          // `lines_processed` counts every line read, so only a body of no lines gets the sentinel
          if |body| == 0 then Outcome([EmptySentinel], [], EmptyBody) else Outcome(loop.fragments, [], Completed)
  }

  /**
   * `generate_response`. An unregistered backend fails the token-cap lookup before
   * anything is sent; the `KeyError` names the backend.
   */
  function GenerateResponse(
    backend: string, url: string, model: string, prompt: string, context: seq<Message>,
    apiKey: string, settings: Settings, parsers: Parsers, exchange: Exchange): (r: Outcome)
    ensures |r.log| <= 1
    ensures r.log != [] <==> r.end.Rejected? || r.end.Failed?
    ensures r.end.Failed? ==>
      && |r.fragments| >= 1
      && r.fragments[|r.fragments| - 1] == FaultFragment(r.end.fault)
      && r.log == [FaultLog(r.end.fault)]
    ensures r.end.Rejected? ==> r.fragments == [StatusFragment(r.end.status)]
    ensures r.end.EmptyBody? ==> r.fragments == [EmptySentinel]
  {
    match BuildRequest(backend, url, model, prompt, context, apiKey, settings)
    case None =>
      var msg := KeyErrorText(backend);
      Outcome([UnexpectedFragment], [Unhandled(msg)], Failed(OtherFault(msg)))
    case Some(_) => Respond(backend, parsers, exchange)
  }
}
