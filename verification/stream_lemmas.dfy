/**
 * Properties of the streaming decoder: how the read loop composes over a body split
 * in two, which lines change nothing, where the stream stops, what it yields for a
 * well-formed stream, and what the non-200, empty-body and exception paths produce.
 */
module StreamLemmas {
  import opened Wrappers
  import opened Text
  import opened Backends
  import opened Stream

  /*
   * A per-line view of the body as the source's branches describe it, written
   * independently of the read loop: the content a line carries, whether it ends the
   * stream, and whether decoding it raises.
   */

  /** The stripped line ends the stream: an Ollama object with a truthy `done`, or an SSE `data: [DONE]`. */
  predicate TerminalLine(backend: string, parsers: Parsers, line: string) {
    if backend == Ollama then line != "" && parsers.ndjson(line).NdObject? && parsers.ndjson(line).done
    else DataPayload(line) == Some(DoneMarker)
  }

  /** Decoding the stripped line raises something other than `JSONDecodeError`. */
  predicate CrashingLine(backend: string, parsers: Parsers, line: string) {
    if backend == Ollama then line != "" && parsers.ndjson(line).NdCrash?
    else
      var data := DataPayload(line);
      data.Some? && data.value != DoneMarker && data.value != "" && parsers.sse(data.value).SseCrash?
  }

  /** The content field the stripped line carries, "" when it carries none. */
  function LineContent(backend: string, parsers: Parsers, line: string): string {
    if backend == Ollama then
      if line != "" && parsers.ndjson(line).NdObject? then parsers.ndjson(line).content else ""
    else
      var data := DataPayload(line);
      if data.Some? && data.value != DoneMarker && data.value != "" && parsers.sse(data.value).SseDelta?
      then parsers.sse(data.value).content
      else ""
  }

  predicate Terminates(backend: string, parsers: Parsers, text: string) {
    TerminalLine(backend, parsers, Strip(text))
  }

  predicate Crashes(backend: string, parsers: Parsers, text: string) {
    CrashingLine(backend, parsers, Strip(text))
  }

  function ContentOf(backend: string, parsers: Parsers, text: string): string {
    LineContent(backend, parsers, Strip(text))
  }

  /**
   * A line the stream passes over: blank, undecodable, an SSE line without the `data: `
   * prefix or with an empty payload, or a decoded chunk whose content is empty.
   */
  predicate Skippable(backend: string, parsers: Parsers, text: string) {
    !Terminates(backend, parsers, text) && !Crashes(backend, parsers, text) && ContentOf(backend, parsers, text) == ""
  }

  /** A line that neither ends the stream nor raises. */
  predicate Ordinary(backend: string, parsers: Parsers, text: string) {
    !Terminates(backend, parsers, text) && !Crashes(backend, parsers, text)
  }

  /** Every line of `texts` is ordinary (stated line by line, so that it unfolds one line at a time). */
  predicate AllOrdinary(backend: string, parsers: Parsers, texts: seq<string>)
    decreases |texts|
  {
    |texts| == 0 || (Ordinary(backend, parsers, texts[0]) && AllOrdinary(backend, parsers, texts[1..]))
  }

  lemma {:induction false} AllOrdinaryEveryLine(backend: string, parsers: Parsers, texts: seq<string>)
    ensures AllOrdinary(backend, parsers, texts) <==> forall k :: 0 <= k < |texts| ==> Ordinary(backend, parsers, texts[k])
    decreases |texts|
  {
    if |texts| > 0 {
      AllOrdinaryEveryLine(backend, parsers, texts[1..]);
      assert forall k :: 1 <= k < |texts| ==> texts[1..][k - 1] == texts[k];
    }
  }

  lemma StepOfLineMeaning(backend: string, parsers: Parsers, line: string)
    ensures var step := if backend == Ollama then OllamaStep(parsers, line) else SseStep(parsers, line);
      && (CrashingLine(backend, parsers, line) <==> step.Crash?)
      && (TerminalLine(backend, parsers, line) <==> step.Finish?)
      && (!step.Crash? ==> step.emit == Yield(LineContent(backend, parsers, line)))
  {
  }

  /** The loop's line rule agrees with the per-line view. */
  lemma LineStepMeaning(backend: string, parsers: Parsers, text: string)
    ensures Crashes(backend, parsers, text) <==> LineRule(backend, parsers)(text).Crash?
    ensures Terminates(backend, parsers, text) <==> LineRule(backend, parsers)(text).Finish?
    ensures !LineRule(backend, parsers)(text).Crash? ==>
      LineRule(backend, parsers)(text).emit == Yield(ContentOf(backend, parsers, text))
  {
    StepOfLineMeaning(backend, parsers, Strip(text));
  }

  /** Under a rule that yields at most one fragment per line, every line read yields at most one fragment, and none is empty. */
  lemma {:induction false} ReadLoopFragments(rule: string -> Step, body: seq<Read>)
    requires forall text :: SingleYield(rule(text))
    ensures |ReadLoop(rule, body).fragments| <= |body|
    ensures forall k :: 0 <= k < |ReadLoop(rule, body).fragments| ==> ReadLoop(rule, body).fragments[k] != ""
    decreases |body|
  {
    if |body| > 0 && body[0].Line? {
      assert SingleYield(rule(body[0].text));
      if rule(body[0].text).Continue? {
        ReadLoopFragments(rule, body[1..]);
      }
    }
  }

  /** The decoder yields no empty fragment and at most one fragment per line read. */
  lemma DecoderFragments(backend: string, parsers: Parsers, body: seq<Read>)
    ensures |ReadLoop(LineRule(backend, parsers), body).fragments| <= |body|
    ensures forall k :: 0 <= k < |ReadLoop(LineRule(backend, parsers), body).fragments| ==>
      ReadLoop(LineRule(backend, parsers), body).fragments[k] != ""
  {
    ReadLoopFragments(LineRule(backend, parsers), body);
  }

  /** Reading `a` then `b` is reading `a`, then, only if `a` ran out without stopping, reading `b`. */
  lemma {:induction false} ReadLoopAppend(rule: string -> Step, a: seq<Read>, b: seq<Read>)
    ensures ReadLoop(rule, a + b) ==
      var la := ReadLoop(rule, a);
      if la.stop.Exhausted? then
        var lb := ReadLoop(rule, b);
        Loop(la.fragments + lb.fragments, lb.stop)
      else la
    decreases |a|
  {
    if |a| == 0 {
      assert a + b == b;
    } else {
      assert (a + b)[0] == a[0];
      assert (a + b)[1..] == a[1..] + b;
      if a[0].Line? && rule(a[0].text).Continue? {
        ReadLoopAppend(rule, a[1..], b);
        var emit := rule(a[0].text).emit;
        var la' := ReadLoop(rule, a[1..]);
        if la'.stop.Exhausted? {
          var lb := ReadLoop(rule, b);
          assert emit + (la'.fragments + lb.fragments) == (emit + la'.fragments) + lb.fragments;
        }
      }
    }
  }

  /** Under any rule, a line that goes on without yielding can be removed without changing the loop. */
  lemma InertLineInvisible(rule: string -> Step, a: seq<Read>, text: string, c: seq<Read>)
    requires rule(text) == Continue([])
    ensures ReadLoop(rule, a + [Line(text)] + c) == ReadLoop(rule, a + c)
  {
    ReadLoopAppend(rule, a, [Line(text)] + c);
    ReadLoopAppend(rule, a, c);
    assert ([Line(text)] + c)[0] == Line(text);
    assert ([Line(text)] + c)[1..] == c;
    assert a + [Line(text)] + c == a + ([Line(text)] + c);
  }

  /** Under any rule, nothing after a line that finishes the loop is read. */
  lemma NothingAfterFinish(rule: string -> Step, a: seq<Read>, text: string, c: seq<Read>)
    requires rule(text).Finish?
    ensures ReadLoop(rule, a + [Line(text)] + c) == ReadLoop(rule, a + [Line(text)])
  {
    ReadLoopAppend(rule, a, [Line(text)] + c);
    ReadLoopAppend(rule, a, [Line(text)]);
    assert ([Line(text)] + c)[0] == Line(text);
    assert a + [Line(text)] + c == a + ([Line(text)] + c);
  }

  /** Inserting a skippable line anywhere changes neither the fragments nor where the loop stops. */
  lemma SkippableLineInvisible(backend: string, parsers: Parsers, a: seq<Read>, text: string, c: seq<Read>)
    requires Skippable(backend, parsers, text)
    ensures ReadLoop(LineRule(backend, parsers), a + [Line(text)] + c) == ReadLoop(LineRule(backend, parsers), a + c)
  {
    LineStepMeaning(backend, parsers, text);
    InertLineInvisible(LineRule(backend, parsers), a, text, c);
  }

  /**
   * The same at the level of the whole 200 response, except for the one case where the
   * inserted line is the whole body: a body of one skippable line yields nothing, while
   * an empty body yields the empty-response sentinel.
   */
  lemma SkippableLineInvisibleInResponse(
    backend: string, parsers: Parsers, a: seq<Read>, text: string, c: seq<Read>, errorText: Option<string>)
    requires Skippable(backend, parsers, text)
    requires |a + c| > 0
    ensures Respond(backend, parsers, Answered(200, a + [Line(text)] + c, errorText))
         == Respond(backend, parsers, Answered(200, a + c, errorText))
  {
    SkippableLineInvisible(backend, parsers, a, text, c);
  }

  /** Nothing after a terminal line is read: whatever follows it, the loop's result is the same. */
  lemma NothingReadAfterTerminal(backend: string, parsers: Parsers, a: seq<Read>, text: string, c: seq<Read>)
    requires Terminates(backend, parsers, text)
    ensures ReadLoop(LineRule(backend, parsers), a + [Line(text)] + c) == ReadLoop(LineRule(backend, parsers), a + [Line(text)])
  {
    LineStepMeaning(backend, parsers, text);
    NothingAfterFinish(LineRule(backend, parsers), a, text, c);
  }

  /** A body made of the given lines, each read successfully. */
  function Lines(texts: seq<string>): seq<Read> {
    seq(|texts|, k requires 0 <= k < |texts| => Line(texts[k]))
  }

  /** The content each line carries, in order. */
  function Contents(backend: string, parsers: Parsers, texts: seq<string>): seq<string> {
    seq(|texts|, k requires 0 <= k < |texts| => ContentOf(backend, parsers, texts[k]))
  }

  /** The contents of a three-line body, line by line. */
  lemma ContentsOfThree(backend: string, parsers: Parsers, t0: string, t1: string, t2: string)
    ensures Contents(backend, parsers, [t0, t1, t2])
         == [ContentOf(backend, parsers, t0), ContentOf(backend, parsers, t1), ContentOf(backend, parsers, t2)]
  {
  }

  lemma ContentsAppend(backend: string, parsers: Parsers, a: seq<string>, b: seq<string>)
    ensures Contents(backend, parsers, a + b) == Contents(backend, parsers, a) + Contents(backend, parsers, b)
  {
    var l := Contents(backend, parsers, a + b);
    var r := Contents(backend, parsers, a) + Contents(backend, parsers, b);
    forall k | 0 <= k < |l|
      ensures l[k] == r[k]
    {
      if k < |a| {
        assert (a + b)[k] == a[k];
      } else {
        assert (a + b)[k] == b[k - |a|];
      }
    }
  }

  /** The non-empty strings of `s`, in order. */
  function NonEmpty(s: seq<string>): seq<string> {
    if |s| == 0 then [] else (if s[0] == "" then [] else [s[0]]) + NonEmpty(s[1..])
  }

  lemma {:induction false} NonEmptyAppend(a: seq<string>, b: seq<string>)
    ensures NonEmpty(a + b) == NonEmpty(a) + NonEmpty(b)
  {
    if |a| == 0 {
      assert a + b == b;
    } else {
      assert (a + b)[0] == a[0];
      assert (a + b)[1..] == a[1..] + b;
      NonEmptyAppend(a[1..], b);
    }
  }

  /**
   * A stream of lines none of which ends the stream or raises yields exactly the
   * non-empty contents of its lines, in order, and runs to the end of the body.
   */
  lemma {:induction false} OrdinaryStream(backend: string, parsers: Parsers, texts: seq<string>)
    requires AllOrdinary(backend, parsers, texts)
    ensures ReadLoop(LineRule(backend, parsers), Lines(texts)) == Loop(NonEmpty(Contents(backend, parsers, texts)), Exhausted)
    decreases |texts|
  {
    if |texts| > 0 {
      LineStepMeaning(backend, parsers, texts[0]);
      assert Lines(texts)[1..] == Lines(texts[1..]);
      assert Contents(backend, parsers, texts)[1..] == Contents(backend, parsers, texts[1..]);
      OrdinaryStream(backend, parsers, texts[1..]);
    }
  }

  /** Under any rule, a body that runs out and is followed by a finishing line stops there. */
  lemma StopsAtFinish(rule: string -> Step, a: seq<Read>, text: string, c: seq<Read>)
    requires ReadLoop(rule, a).stop.Exhausted?
    requires rule(text).Finish?
    ensures ReadLoop(rule, a + [Line(text)] + c) == Loop(ReadLoop(rule, a).fragments + rule(text).emit, Marker)
  {
    NothingAfterFinish(rule, a, text, c);
    ReadLoopAppend(rule, a, [Line(text)]);
    assert [Line(text)][0] == Line(text);
  }

  /** Under any rule, a body that runs out and is followed by a failed read ends with that fault. */
  lemma AbortsAtBrokenRead(rule: string -> Step, a: seq<Read>, fault: Fault, c: seq<Read>)
    requires ReadLoop(rule, a).stop.Exhausted?
    ensures ReadLoop(rule, a + [Broken(fault)] + c) == Loop(ReadLoop(rule, a).fragments, Aborted(fault))
  {
    ReadLoopAppend(rule, a, [Broken(fault)] + c);
    assert ([Broken(fault)] + c)[0] == Broken(fault);
    assert a + [Broken(fault)] + c == a + ([Broken(fault)] + c);
    assert ReadLoop(rule, a).fragments + [] == ReadLoop(rule, a).fragments;
  }

  /** Under any rule, a body that runs out and is followed by a line whose decoding raises ends with that exception. */
  lemma AbortsAtCrashingLine(rule: string -> Step, a: seq<Read>, text: string, c: seq<Read>)
    requires ReadLoop(rule, a).stop.Exhausted?
    requires rule(text).Crash?
    ensures ReadLoop(rule, a + [Line(text)] + c)
         == Loop(ReadLoop(rule, a).fragments, Aborted(OtherFault(rule(text).detail)))
  {
    ReadLoopAppend(rule, a, [Line(text)] + c);
    assert ([Line(text)] + c)[0] == Line(text);
    assert a + [Line(text)] + c == a + ([Line(text)] + c);
    assert ReadLoop(rule, a).fragments + [] == ReadLoop(rule, a).fragments;
  }

  /**
   * A stream whose line `i` is the first to end it (and none before raises) yields the
   * non-empty contents of lines `0..i` inclusive, stops there, and never reads the rest.
   * For Ollama the `done` line's own content is included; an SSE `[DONE]` line carries none.
   */
  lemma StopsAtFirstTerminal(backend: string, parsers: Parsers, texts: seq<string>, i: nat)
    requires i < |texts|
    requires Terminates(backend, parsers, texts[i])
    requires AllOrdinary(backend, parsers, texts[..i])
    ensures ReadLoop(LineRule(backend, parsers), Lines(texts))
         == Loop(NonEmpty(Contents(backend, parsers, texts[..i + 1])), Marker)
  {
    var rule := LineRule(backend, parsers);
    var before := texts[..i];
    var t := texts[i];
    assert Lines(texts) == Lines(before) + [Line(t)] + Lines(texts[i + 1..]);
    OrdinaryStream(backend, parsers, before);
    LineStepMeaning(backend, parsers, t);
    StopsAtFinish(rule, Lines(before), t, Lines(texts[i + 1..]));
    var c := ContentOf(backend, parsers, t);
    assert texts[..i + 1] == before + [t];
    ContentsAppend(backend, parsers, before, [t]);
    assert Contents(backend, parsers, [t]) == [c];
    NonEmptyAppend(Contents(backend, parsers, before), [c]);
    assert NonEmpty([c]) == Yield(c);
  }

  /**
   * An exception while reading a line (a transport error or an undecodable line)
   * ends the call with the fragments already yielded and one final fragment for it,
   * and logs it once.
   */
  lemma BrokenReadEndsCall(
    backend: string, parsers: Parsers, texts: seq<string>, fault: Fault, rest: seq<Read>, errorText: Option<string>)
    requires AllOrdinary(backend, parsers, texts)
    ensures Respond(backend, parsers, Answered(200, Lines(texts) + [Broken(fault)] + rest, errorText))
         == Outcome(NonEmpty(Contents(backend, parsers, texts)) + [FaultFragment(fault)], [FaultLog(fault)], Failed(fault))
  {
    OrdinaryStream(backend, parsers, texts);
    AbortsAtBrokenRead(LineRule(backend, parsers), Lines(texts), fault, rest);
  }

  /**
   * Any status other than 200 (201 included) yields exactly one fragment naming the
   * status, logs the error text once, and never looks at the body lines.
   */
  lemma RejectedReadsNoBody(
    backend: string, parsers: Parsers, status: nat, body1: seq<Read>, body2: seq<Read>, errorText: Option<string>)
    requires status != 200
    ensures Respond(backend, parsers, Answered(status, body1, errorText))
         == Respond(backend, parsers, Answered(status, body2, errorText))
    ensures Respond(backend, parsers, Answered(status, body1, errorText)).fragments == [StatusFragment(status)]
    ensures Respond(backend, parsers, Answered(status, body1, errorText)).log == [ApiError(status, errorText.GetOr(""))]
  {
  }

  /** The status can be read back from its fragment. */
  lemma StatusFragmentNamesStatus(status: nat)
    ensures var f := StatusFragment(status);
      && StartsWith(f, StatusPrefix)
      && |f| >= |StatusPrefix| + |StatusSuffix|
      && f[|f| - |StatusSuffix|..] == StatusSuffix
      && (forall k :: |StatusPrefix| <= k < |f| - |StatusSuffix| ==> IsDigit(f[k]))
      && ParseDecimal(f[|StatusPrefix|..|f| - |StatusSuffix|]) == status
  {
    var digits := NatToString(status);
    var f := StatusFragment(status);
    assert f[|StatusPrefix|..|f| - |StatusSuffix|] == digits;
    ParseNatToString(status);
  }

  /**
   * With status 200 the empty-response sentinel comes exactly from a body of no lines,
   * and then it is the only fragment.
   */
  lemma EmptySentinelIffNoLines(backend: string, parsers: Parsers, body: seq<Read>, errorText: Option<string>)
    ensures Respond(backend, parsers, Answered(200, body, errorText)).end == EmptyBody <==> |body| == 0
    ensures |body| == 0 ==> Respond(backend, parsers, Answered(200, body, errorText)).fragments == [EmptySentinel]
  {
  }

  /**
   * A non-empty 200 body of skippable lines (blank lines, heartbeats, chunks with no
   * content) yields no fragment at all, and no sentinel either.
   */
  lemma SkippableBodyYieldsNothing(backend: string, parsers: Parsers, texts: seq<string>, errorText: Option<string>)
    requires |texts| > 0
    requires forall k :: 0 <= k < |texts| ==> Skippable(backend, parsers, texts[k])
    ensures Respond(backend, parsers, Answered(200, Lines(texts), errorText)) == Outcome([], [], Completed)
  {
    AllOrdinaryEveryLine(backend, parsers, texts);
    OrdinaryStream(backend, parsers, texts);
    NonEmptyAllEmpty(Contents(backend, parsers, texts));
  }

  /**
   * Skippable lines followed by a failed read, or by a line whose decoding raises, end
   * the call with the exception's fragment alone. A line's exception is a non-client one.
   */
  lemma SkippedThenAborted(
    backend: string, parsers: Parsers, skipped: seq<string>, last: Read, rest: seq<Read>, errorText: Option<string>)
    requires forall k :: 0 <= k < |skipped| ==> Skippable(backend, parsers, skipped[k])
    requires last.Broken? || Crashes(backend, parsers, last.text)
    ensures var o := Respond(backend, parsers, Answered(200, Lines(skipped) + [last] + rest, errorText));
      && o.end.Failed?
      && o.fragments == [FaultFragment(o.end.fault)]
      && o.log == [FaultLog(o.end.fault)]
      && (last.Broken? ==> o.end.fault == last.fault)
      && (last.Line? ==> o.end.fault.OtherFault?)
  {
    var rule := LineRule(backend, parsers);
    AllOrdinaryEveryLine(backend, parsers, skipped);
    OrdinaryStream(backend, parsers, skipped);
    NonEmptyAllEmpty(Contents(backend, parsers, skipped));
    if last.Broken? {
      AbortsAtBrokenRead(rule, Lines(skipped), last.fault, rest);
    } else {
      LineStepMeaning(backend, parsers, last.text);
      AbortsAtCrashingLine(rule, Lines(skipped), last.text, rest);
    }
  }

  lemma {:induction false} NonEmptyAllEmpty(s: seq<string>)
    requires forall k :: 0 <= k < |s| ==> s[k] == ""
    ensures NonEmpty(s) == []
  {
    if |s| > 0 {
      NonEmptyAllEmpty(s[1..]);
    }
  }

  /** For a registered backend the call's outcome is what the network's answer makes of it. */
  lemma RegisteredResponds(
    backend: string, url: string, model: string, prompt: string, context: seq<Message>,
    apiKey: string, settings: Settings, parsers: Parsers, exchange: Exchange)
    requires Lookup(backend).Some?
    ensures GenerateResponse(backend, url, model, prompt, context, apiKey, settings, parsers, exchange)
         == Respond(backend, parsers, exchange)
  {
    assert BuildRequest(backend, url, model, prompt, context, apiKey, settings).Some?;
  }

  /** An unregistered backend yields one generic fragment and sends nothing, whatever the network would say. */
  lemma UnknownBackendFails(
    backend: string, url: string, model: string, prompt: string, context: seq<Message>,
    apiKey: string, settings: Settings, parsers: Parsers, exchange: Exchange)
    requires backend != LMStudio && backend != Ollama && backend != HuggingFace
    ensures GenerateResponse(backend, url, model, prompt, context, apiKey, settings, parsers, exchange)
         == Outcome([UnexpectedFragment], [Unhandled("'" + backend + "'")], Failed(OtherFault("'" + backend + "'")))
    ensures LogText(GenerateResponse(backend, url, model, prompt, context, apiKey, settings, parsers, exchange).log[0])
         == "Unhandled exception in generate_response: '" + backend + "'"
  {
    var msg := "'" + backend + "'";
    assert BuildRequest(backend, url, model, prompt, context, apiKey, settings).None?;
    assert LogText(Unhandled(msg)) == "Unhandled exception in generate_response: " + msg;
  }
}
