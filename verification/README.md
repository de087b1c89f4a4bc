# Sophia chat client — a Dafny model

`interface.py` is a Streamlit front end for "Sophia". It sends chat prompts to one of three
registered LLM backends: LM Studio, Ollama or Hugging Face. This project models the part of it
that is pure control logic once the network is taken out.

- **Backend registry and request assembly** (`Backends`):
  - the `BACKEND_CONFIG` table and the headers;
  - the three-way endpoint rule and the `min` clamp on `max_tokens`;
  - the message order (system prompt, then history, then the user's prompt);
  - the probe request;
  - the five-message history window the chat page sends.
- **Streaming decoder** (`Stream`, with lemmas in `StreamLemmas` and concrete exchanges in
  `StreamScenarios`). `generate_response` turns one HTTP exchange into the ordered text
  fragments the caller receives, plus the entries it appends to the error log.
  - Ollama replies are newline-delimited JSON; a truthy `done` ends the stream.
  - LM Studio and Hugging Face reply with `data: ` event lines, ended by `[DONE]`.
  - A 200 reply with no lines yields the `[Empty response]` sentinel.
  - Any other status yields one error fragment.
  - A network error or an unexpected exception adds one final fragment.
- **Probe and auto-detection** (`Probe`):
  - the retry loop of `probe_backend_url`, as a method with loop invariants: how many attempts it
    makes, when it pauses, and when it reports the address reachable;
  - `auto_detect_endpoint`, built on that loop.
- **Model health check** (`Health`): `test_model`'s classification of the joined reply, as
  written, and the classification it evidently intends (see Findings).
- **Rune parser** (`Runes`): the parameter accumulation of `parse_gl` over the rune table.

`Text` holds the Python string operations the code relies on:
- `str.strip()` with Python's whitespace set;
- `startswith`;
- the `in` substring test;
- `"".join`;
- `str()` of a non-negative integer.

`Wrappers` holds `Option`.

The network is a parameter.
- A chat call meets an `Exchange`: either the connection fails with a fault, or a status arrives
  with a body given as a sequence of reads, each a line or a failed read.
- A probe meets one `Attempt` per try, given as a function from the attempt number.
- JSON decoding of a line is a pair of functions (`Parsers`). Each maps the stripped text to
  "malformed", a decoded chunk, or a chunk whose field lookups raise.

## Model

| member | source | states |
|---|---|---|
| Text.TrimStartSpec | interface.py:241 | Removing leading whitespace leaves a suffix of the input that does not start with whitespace, and drops only whitespace. |
| Text.TrimEndSpec | interface.py:241 | Removing trailing whitespace leaves a prefix of the input that does not end with whitespace, and drops only whitespace. |
| Text.StripSpec | interface.py:241 | `strip()` returns the infix left after dropping whitespace at both ends. Everything dropped is whitespace, and the result starts and ends with a non-space. It is empty exactly when the line is all whitespace. |
| Text.StripIdempotent | interface.py:259 | Stripping an already stripped text again (the SSE payload) changes nothing. |
| Text.StripFixedPoint | interface.py:241 | A text is its own strip iff it is empty or starts and ends with a non-space. |
| Text.StripDropsNewline | interface.py:235-241 | A line read with its trailing newline strips to its text when the text has no whitespace at its ends. |
| Text.ContainsIsOccurrence | interface.py:351 | The `in` test holds iff the substring occurs at some index. |
| Text.NoErrorWithoutCapitalE | interface.py:351 | A text with no capital E never contains "Error". |
| Text.ConcatEmpty | interface.py:350 | The joined fragments are empty iff every fragment is empty. |
| Text.ConcatAppend | interface.py:350 | Joining two lists of fragments is joining each and concatenating. |
| Text.NatToString | interface.py:285 | `str()` of a status is a non-empty string of decimal digits without a leading zero. |
| Text.ParseNatToString | interface.py:285 | Reading the printed status back as a decimal gives the status. |
| Backends.Lookup | interface.py:41-51 | Exactly the three registered names have a configuration. Each has a default URL and a positive token cap. Only Hugging Face needs an API key, and only Hugging Face lists models, the probe's model among them. |
| Backends.Headers | interface.py:199-201 | The headers are the JSON content type, followed by an Authorization header exactly when the key is non-empty and the backend is Hugging Face, and nothing else. The Authorization value is "Bearer " followed by the key. |
| Backends.BearerFollowsRegistry | interface.py:199-201 | For a registered backend, a bearer header is sent iff a key is given and the registry says the backend needs one. |
| Backends.Endpoint | interface.py:219-224 | The endpoint starts with the URL. Ollama adds `/api/chat`, Hugging Face adds nothing, and every other backend adds `/chat/completions`. |
| Backends.EndpointDeterminesUrl | interface.py:219-224 | For a fixed backend, different URLs give different endpoints. |
| Backends.MaxTokens | interface.py:203 | The token limit is the smaller of the context length and the backend cap: at most both, and equal to one of them. |
| Backends.ChatMessages | interface.py:206-210 | The messages are the system prompt, then the history unchanged, then the user's prompt, so there are two more than the history holds. |
| Backends.BuildRequest | interface.py:199-215 | A request exists iff the backend is registered. It posts to the backend's endpoint with its headers and the message list above. The token limit is the `min` of the context length and the backend cap. The sampling settings are passed unchanged and streaming is on. |
| Backends.ProbeRequestFor | interface.py:81-109 | The probe uses the chat headers. It uses POST iff the backend is Hugging Face, with a body only then: model `minimaxai/minimax-m1-80k`, ten tokens, and one user turn "ping". |
| Backends.HistoryWindow | interface.py:575 | The window sent with a new prompt has at most five turns. It has one less than the transcript when that is shorter, none for a transcript of at most one turn, and it consists of the turns immediately before the newest. |
| Stream.DataPayload | interface.py:258-259 | A line has a payload iff it starts with `data: `, and a payload is already stripped: a second `strip()` changes nothing. |
| Stream.DataPayloadOfPrefixed | interface.py:258-259 | For every text `p`, the line `data: ` followed by `p` has the payload `p` stripped. |
| Stream.OllamaStep | interface.py:244-256 | An NDJSON line yields at most one fragment, and never an empty one. |
| Stream.SseStep | interface.py:257-271 | An SSE line yields at most one fragment, and never an empty one. |
| Stream.LineStep | interface.py:241-271 | Each line read yields at most one non-empty fragment, for either wire format. |
| Stream.GenerateResponse | interface.py:195-304 | A call logs at most one entry, and logs one iff it was rejected or failed. A failed call ends with its fault's fragment and logs that fault. A rejected call yields only the status fragment. An empty body yields only the sentinel. |
| StreamLemmas.StepOfLineMeaning | interface.py:244-271 | Per stripped line: it crashes iff its decoding raises, it ends the stream iff it is an Ollama `done` or an SSE `[DONE]`, and otherwise it yields its non-empty content. |
| StreamLemmas.LineStepMeaning | interface.py:241-271 | The same three facts hold for the raw line, through the strip. |
| StreamLemmas.ReadLoopFragments | interface.py:234-271 | Under any rule that yields at most one non-empty fragment per line, the read loop yields no empty fragment and no more fragments than reads. |
| StreamLemmas.DecoderFragments | interface.py:234-271 | The decoder yields no empty fragment and at most one fragment per line read. |
| StreamLemmas.ReadLoopAppend | interface.py:234-271 | Reading `a` then `b` is reading `a`, and then reading `b` only if `a` ran out without stopping. |
| StreamLemmas.InertLineInvisible | interface.py:245 | A line that goes on without yielding can be deleted without changing the loop's result. |
| StreamLemmas.NothingAfterFinish | interface.py:251-261 | Lines after one that finishes the loop are never read. |
| StreamLemmas.SkippableLineInvisible | interface.py:244-271 | Inserting a skippable line anywhere changes neither the fragments nor where the loop stops. Skippable means blank, without a data prefix, an empty payload, malformed, or without content. |
| StreamLemmas.SkippableLineInvisibleInResponse | interface.py:233-275 | The whole reply is unchanged by a skippable line, as long as the body has other lines too. |
| StreamLemmas.NothingReadAfterTerminal | interface.py:251-261 | Whatever follows a terminal line, the decoder's result is the same. |
| StreamLemmas.OrdinaryStream | interface.py:234-271 | A body of lines that neither end the stream nor raise yields their non-empty contents, in order. |
| StreamLemmas.StopsAtFinish | interface.py:251-261 | A body that runs out and is followed by a finishing line yields the earlier fragments plus that line's own, and stops. |
| StreamLemmas.AbortsAtBrokenRead | interface.py:235 | A failed read after lines that ran out stops the loop with that fault, keeping the fragments so far. |
| StreamLemmas.AbortsAtCrashingLine | interface.py:247-266 | A line whose decoding raises, read after lines that ran out, stops the loop with a non-client fault, keeping the fragments so far. |
| StreamLemmas.StopsAtFirstTerminal | interface.py:244-261 | When the first terminal line is at position i, the output is the non-empty contents of lines 0..i in order, including the terminal line's own content. |
| StreamLemmas.BrokenReadEndsCall | interface.py:288-304 | A failed read after ordinary lines gives their contents, then the fault's fragment, and logs the fault. |
| StreamLemmas.RejectedReadsNoBody | interface.py:276-286 | For a status other than 200, no body line is decoded: the outcome is the same whatever lines the body holds. The reply is the one status fragment, and the log gets the status with the error text, or "" when there is none. |
| StreamLemmas.StatusFragmentNamesStatus | interface.py:285 | The status fragment is the fixed prefix, the status in decimal and the fixed suffix, and the status can be read back from it. |
| StreamLemmas.EmptySentinelIffNoLines | interface.py:233-275 | A 200 reply ends with the empty-response sentinel iff its body has no lines at all. |
| StreamLemmas.SkippedThenAborted | interface.py:234-304 | Skippable lines followed by a failed read, or by a line whose decoding raises, end the call with the exception's fragment alone and one log entry. A failed read ends with its own fault, and a raising line ends with a non-client fault. |
| StreamLemmas.SkippableBodyYieldsNothing | interface.py:233-275 | A non-empty 200 body of skippable lines yields nothing, not even the sentinel, because every line read is counted. |
| StreamLemmas.UnknownBackendFails | interface.py:298-304 | An unregistered backend fails the token-cap lookup at interface.py:203, whatever the network would say. The call yields the generic fragment and logs "Unhandled exception in generate_response: " followed by the name in single quotes, as `str()` of the `KeyError` prints it. |
| StreamLemmas.RegisteredResponds | interface.py:198-229 | For a registered backend, the outcome of the call is determined by the network's answer alone. |
| StreamScenarios.NdjsonExample | interface.py:244-256 | Two NDJSON lines, the second with `done`, yield "Hi" then " there". |
| StreamScenarios.SseHiLine | interface.py:258-268 | One SSE data line is ordinary and carries "Hi". |
| StreamScenarios.BlankLine | interface.py:257-258 | A blank SSE line is ordinary and carries nothing. |
| StreamScenarios.SseDoneLine | interface.py:258-261 | `data: [DONE]` ends an SSE stream and carries nothing. |
| StreamScenarios.SseLoop | interface.py:257-271 | The lines data, blank, `[DONE]` give the fragment "Hi" and stop at the marker. |
| StreamScenarios.SseExample | interface.py:257-271 | The same exchange through `generate_response` yields just "Hi" and completes. |
| StreamScenarios.MalformedLineBetweenTwoGood | interface.py:254-256 | An undecodable NDJSON line between two good ones yields exactly the two good contents. |
| StreamScenarios.NotFoundExample | interface.py:276-286 | A 404 yields "Error from AI provider (Status 404). Check logs." and logs the error text. |
| StreamScenarios.EmptyBodyExample | interface.py:273-275 | A 200 reply with no body yields `[Empty response]`. |
| Probe.ProbeBackendUrl | interface.py:79-120 | The probe sends the request for its backend. It reports reachable iff some permitted attempt meets 200 or 201 after only retryable attempts. It makes at most `retries` attempts, and every attempt before the last was retried. A reachable result stops at the accepting attempt. An unreachable one used all attempts or stopped at a non-client exception. It pauses once per client error except on the last permitted attempt. |
| Probe.AutoDetectEndpoint | interface.py:137-145 | An unregistered backend gives None without probing. A registered one sends the probe request for its default URL and gives that URL iff a three-try probe of it succeeds, and None otherwise. |
| Probe.ClientErrorsPauseBetweenAttempts | interface.py:101-104 | When every attempt is a client error, the probe pauses after each permitted attempt but the last. |
| Probe.StatusesNeverPause | interface.py:97-100 | Rejected statuses retry at once, without a pause. |
| Probe.NeverAnsweringIsUnreachable | interface.py:94-120 | An address that only ever raises client errors is never reached, whatever the retry count. |
| Health.ClassifyIsTwoValued | interface.py:350-357 | As written, the status is SUCCESS iff some fragment is non-empty and the joined text has no "Error", and FAIL otherwise. EMPTY_SUCCESS never comes out. The response is the joined text, or "No content received." when that is empty. |
| Health.RejectedFailsCheck | interface.py:343-357 | For a registered backend, a non-200 reply fails the health check. |
| Health.SentinelLacksError | interface.py:275 | The empty-response sentinel does not contain "Error". |
| Health.EmptyBodyPassesCheck | interface.py:343-357 | As written, an empty 200 body passes the check, with the sentinel reported as the model's reply. |
| Health.NetworkErrorPassesCheck | interface.py:288-292 | As written, a network error whose message has no capital E passes the check. |
| Health.UnexpectedFragmentLacksError | interface.py:304 | The generic exception handler's fragment does not contain "Error". |
| Health.UnexpectedErrorPassesCheck | interface.py:343-357 | As written, every call that an unexpected exception ends before any content arrives passes the check, with the generic fragment as the reported reply. Such a call is one that ends in a non-client fault with that fragment as its only fragment. |
| Health.UnexpectedErrorBeforeContent | interface.py:234-304 | As written, for a registered backend, these calls all pass the check: a failed POST that is not a client error; skippable lines followed by a read that fails that way, such as a line that is not valid UTF-8; and skippable lines followed by a line whose decoding raises, such as an Ollama line `null` or an SSE chunk with an empty `choices` list. |
| Health.IntendedCheckFollowsEnd | interface.py:350-353 | The corrected check fails exactly the calls that were rejected or raised, and the completed ones whose content contains "Error". It reports EMPTY_SUCCESS exactly for a completed call without content. On every completed call with content it agrees with the written check. |
| Health.IntendedCheckFailsFaults | interface.py:288-304 | Under the corrected check, every connection fault fails. |
| Health.IntendedCheckEmptySuccess | interface.py:352-353 | Under the corrected check, an empty 200 body is EMPTY_SUCCESS with "No content received.". |
| Runes.RuneDict | interface.py:34-38 | Exactly the three runes EXCITE, COHERE and VITALIZE are in the table. |
| Runes.VitalizeScript | interface.py:174-177 | VITALIZE's script adds 0.9 to coherence through its COHERE sub-rune and skips the unknown sub-rune. |
| Runes.ParseGlCounts | interface.py:164-177 | `parse_gl` never raises over this table. g_EM is 1.0 per EXCITE, coherence is 0.9 per COHERE and per VITALIZE, and zeta stays 0. |
| Runes.ParseGlNotes | interface.py:180 | There is one note per known rune, and each is one of the table's three notes. |
| Runes.ParseGlFunctionCall | interface.py:178-179 | A function call is requested iff VITALIZE occurs in the input. |
| Runes.UnknownCharIgnored | interface.py:170 | A character outside the table changes nothing. |
| Runes.ParseGlAppend | interface.py:169-180 | Parsing is additive over concatenation. Parameters add up, notes concatenate in order, and a function call is requested iff either part requests one. |
| Runes.NotesAppend | interface.py:180 | The notes of a concatenation are those of the first part followed by those of the second. |
| Runes.ExampleRuneString | interface.py:567 | The input field's example "ᚲᛚᛞ" gives g_EM 1.0, coherence 1.8, the three notes in order and a function call. |

## Left out

- Network I/O is not modelled: aiohttp sessions, `ssl=False` and timeouts. A call is given its `Exchange` and a probe its per-attempt outcomes instead.
- `asyncio.sleep(1)` is counted as a pause, not as elapsed time.
- Logging through `logger` is not modelled. Only the `error_log` entries are, and the session is assumed to hold `error_log`.
- JSON and UTF-8 decoding are abstracted:
  - `json.loads` and the field lookups are the `Parsers` functions.
  - Non-dict JSON or an empty `choices` list is a crashing chunk. The generic handler (interface.py:298-304) deals with those.
  - A falsy content (null, 0, false) is read as "", so the line is skipped, as `if content:` does.
  - A truthy content that is not a string is not modelled. `generate_response` would yield it as it is.
  - A UTF-8 decoding failure is a failed read with a non-client fault.
  - A truthy `done` is a boolean.
- The `JSONDecodeError` handler at interface.py:293-297 is not modelled. Both line parsers catch that exception themselves, so nothing reaches it.
- The traceback text that follows an unhandled exception in the log entry is not modelled.
- Image attachments (interface.py:577-587) are not modelled. History messages carry a role and a string content only.
- The Hugging Face `model_endpoint` field is not modelled, because nothing in the core reads it.
- `temperature` and `top_p` are exact reals passed through unchanged. Floating point is not modelled.
- Health.TestModel: fragments are always strings, so `test_model`'s own exception handler is not modelled. That handler is the "ERROR" status at interface.py:358-360. It would be reached when a non-string content makes `"".join` raise.
- StreamLemmas.UnknownBackendFails: the name is quoted with single quotes. Python's `repr` escaping of a name that holds quotes or backslashes is not modelled.
- Stream.GenerateResponse: the settings come in as a parameter rather than from Streamlit session state.
- Runes.ParseGlCounts: the sums are exact reals, so float rounding is not modelled. Along a run of COHERE runes the program first differs at seven: it gives coherence 6.300000000000001, the model 6.3.
- Runes.ParseGlAppend: the parameters add up only over exact reals. With Python floats, "ᛚᛚ" gives coherence 1.8 and "ᛚᛚᛚᛚᛚ" gives 4.5, which add to 6.3, but "ᛚᛚᛚᛚᛚᛚᛚ" gives 6.300000000000001.
- The rest of `parse_gl` is not modelled: the `simulate_ruft` call (NumPy `sin` numerics), `json.dumps` of the function-call arguments and the result dictionary.
- `get_ollama_models`, `test_backend`, `test_ui`, `initialize_session_state`, `run_prototype` and the rest of the Streamlit page are UI and HTTP plumbing.
- `rust_noise/` is floating-point noise generation and a GUI, separate from the chat client.
- Auto-detection returns `None` when the probe fails (interface.py:144-145), and the model follows that. The default URL is used anyway only by the settings page, through `... or BACKEND_CONFIG[backend]["default_url"]` (interface.py:456, 472). The page is not modelled.

## Findings

| source | as written | input that shows it | evidently intended | confidence | as-written member | corrected member |
|---|---|---|---|---|---|---|
| interface.py:351 | the check fails a reply only if its text contains "Error" | LM Studio selected with its hard-coded model `llama-3-8b` (interface.py:489) while the server at 127.0.0.1:1234 is down. `aiohttp` raises a message such as "Cannot connect to host 127.0.0.1:1234 ssl:default [Connect call failed ('127.0.0.1', 1234)]", which has no capital E, and the fragment "Network error: " followed by it and ". Please check connection." is classified SUCCESS | a call that ended in a network error is FAIL | not executed | Health.NetworkErrorPassesCheck | Health.IntendedCheckFailsFaults |
| interface.py:351 | same text test | Ollama sends a first reply line that is not valid UTF-8. The `UnicodeDecodeError` leaves only "Sophia encountered an unexpected problem. Details have been logged.", which is classified SUCCESS | a call that ended in an exception is FAIL | not executed | Health.UnexpectedErrorPassesCheck | Health.IntendedCheckFollowsEnd |
| interface.py:352-353 | EMPTY_SUCCESS is tested after SUCCESS already required a non-empty reply | a 200 reply with no body is SUCCESS with "[Empty response]". A 200 reply of blank lines is FAIL | a completed call without content is EMPTY_SUCCESS with "No content received." | not executed | Health.ClassifyIsTwoValued | Health.IntendedCheckEmptySuccess |
