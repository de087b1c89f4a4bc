/**
 * The model health check (`test_model`): it runs the chat client once with the prompt
 * "Hello" and no history, joins every fragment, and classifies the joined text.
 */
module Health {
  import opened Wrappers
  import opened Text
  import opened Backends
  import opened Stream
  import opened StreamLemmas

  datatype HealthReport = HealthReport(status: string, response: string)

  const NoContent := "No content received."

  /**
   * The classification as written: SUCCESS needs a non-empty reply without the
   * substring "Error"; the EMPTY_SUCCESS branch that follows tests a condition the
   * SUCCESS rule has already excluded.
   */
  function Classify(fragments: seq<string>): HealthReport {
    var full := Concat(fragments);
    var status := if !Contains(full, "Error") && full != "" then "SUCCESS" else "FAIL";
    var status' := if full == "" && status == "SUCCESS" then "EMPTY_SUCCESS" else status;
    HealthReport(status', if full != "" then full else NoContent)
  }

  /** `test_model` as written. */
  function TestModel(
    backend: string, url: string, model: string, apiKey: string,
    settings: Settings, parsers: Parsers, exchange: Exchange): HealthReport
  {
    Classify(GenerateResponse(backend, url, model, "Hello", [], apiKey, settings, parsers, exchange).fragments)
  }

  /**
   * The classification is two-valued: SUCCESS exactly when some fragment is non-empty
   * and the joined text has no "Error" in it, FAIL otherwise; EMPTY_SUCCESS never comes
   * out. The reported response is the joined text, or "No content received." when empty.
   */
  lemma {:induction false} ClassifyIsTwoValued(fragments: seq<string>)
    ensures Classify(fragments).status == "SUCCESS" <==>
      (exists k :: 0 <= k < |fragments| && fragments[k] != "") && !Contains(Concat(fragments), "Error")
    ensures Classify(fragments).status == "SUCCESS" || Classify(fragments).status == "FAIL"
    ensures Classify(fragments).status != "EMPTY_SUCCESS"
    ensures Classify(fragments).response == (if Concat(fragments) == "" then NoContent else Concat(fragments))
  {
    ConcatEmpty(fragments);
  }

  /** For a registered backend a non-200 reply always fails the check: its one fragment starts with "Error". */
  lemma RejectedFailsCheck(
    backend: string, url: string, model: string, apiKey: string,
    settings: Settings, parsers: Parsers, status: nat, body: seq<Read>, errorText: Option<string>)
    requires Lookup(backend).Some?
    requires status != 200
    ensures TestModel(backend, url, model, apiKey, settings, parsers, Answered(status, body, errorText)).status == "FAIL"
  {
    var f := StatusFragment(status);
    assert Concat([f]) == f;
    assert StatusPrefix[..5] == "Error";
    assert f[..5] == StatusPrefix[..5];
    assert StartsWith(f, "Error");
  }

  /** The sentinel "[Empty response]" does not contain "Error". */
  lemma SentinelLacksError()
    ensures !Contains(EmptySentinel, "Error")
  {
    var s1 := EmptySentinel[1..];
    var s2 := s1[1..];
    assert s2 == "mpty response]";
    assert 'E' !in s2;
    NoErrorWithoutCapitalE(s2);
    assert !StartsWith(s1, "Error") by { assert s1[1] == 'm'; }
    assert !Contains(s1, "Error");
    assert !StartsWith(EmptySentinel, "Error") by { assert EmptySentinel[0] == '['; }
  }

  /** An empty 200 body passes the check, reporting the sentinel as the model's reply. */
  lemma EmptyBodyPassesCheck(
    backend: string, url: string, model: string, apiKey: string,
    settings: Settings, parsers: Parsers, errorText: Option<string>)
    requires Lookup(backend).Some?
    ensures TestModel(backend, url, model, apiKey, settings, parsers, Answered(200, [], errorText))
         == HealthReport("SUCCESS", EmptySentinel)
  {
    var o := GenerateResponse(backend, url, model, "Hello", [], apiKey, settings, parsers, Answered(200, [], errorText));
    assert o.fragments == [EmptySentinel];
    assert Concat([EmptySentinel]) == EmptySentinel;
    SentinelLacksError();
  }

  /**
   * As written, a connection that fails with a network error whose message has no
   * capital E (aiohttp's "Cannot connect to host ..." is one) passes the check: the
   * fragment says "Network error", with a lower-case e.
   */
  lemma NetworkErrorPassesCheck(
    backend: string, url: string, model: string, apiKey: string,
    settings: Settings, parsers: Parsers, msg: string)
    requires Lookup(backend).Some?
    requires 'E' !in msg
    ensures TestModel(backend, url, model, apiKey, settings, parsers, Unreachable(ClientFault(msg))).status == "SUCCESS"
  {
    var f := FaultFragment(ClientFault(msg));
    assert Concat([f]) == f;
    assert 'E' !in "Network error: " && 'E' !in ". Please check connection.";
    assert f == "Network error: " + msg + ". Please check connection.";
    assert forall c :: c in f ==> c in "Network error: " || c in msg || c in ". Please check connection.";
    NoErrorWithoutCapitalE(f);
  }

  /** The generic exception handler's fragment does not contain "Error": it has no capital E. */
  lemma UnexpectedFragmentLacksError()
    ensures !Contains(UnexpectedFragment, "Error")
  {
    assert 'E' !in UnexpectedSubject && 'E' !in UnexpectedProblem && 'E' !in UnexpectedNote;
    assert 'E' !in UnexpectedSubject + UnexpectedProblem;
    NoErrorWithoutCapitalE(UnexpectedFragment);
  }

  /**
   * As written, every call that an unexpected exception ends before any content arrives
   * passes the check, with the generic fragment reported as the model's reply.
   */
  lemma UnexpectedErrorPassesCheck(
    backend: string, url: string, model: string, apiKey: string,
    settings: Settings, parsers: Parsers, exchange: Exchange)
    requires var o := GenerateResponse(backend, url, model, "Hello", [], apiKey, settings, parsers, exchange);
      o.end.Failed? && o.end.fault.OtherFault? && |o.fragments| == 1
    ensures TestModel(backend, url, model, apiKey, settings, parsers, exchange)
         == HealthReport("SUCCESS", UnexpectedFragment)
  {
    var o := GenerateResponse(backend, url, model, "Hello", [], apiKey, settings, parsers, exchange);
    assert o.fragments == [UnexpectedFragment];
    assert Concat([UnexpectedFragment]) == UnexpectedFragment;
    UnexpectedFragmentLacksError();
  }

  /**
   * Calls of a registered backend that an unexpected exception ends before any content:
   * a failure of the POST itself that is not a client error, and a reply whose skippable
   * lines are followed by a read that fails with such an error (a line that is not valid
   * UTF-8) or by a line whose decoding raises (an Ollama line `null`, an SSE chunk with
   * an empty `choices` list). As written, each passes the check.
   */
  lemma UnexpectedErrorBeforeContent(
    backend: string, url: string, model: string, apiKey: string, settings: Settings, parsers: Parsers,
    msg: string, skipped: seq<string>, last: Read, rest: seq<Read>, errorText: Option<string>)
    requires Lookup(backend).Some?
    requires forall k :: 0 <= k < |skipped| ==> Skippable(backend, parsers, skipped[k])
    requires (last.Broken? && last.fault.OtherFault?) || (last.Line? && Crashes(backend, parsers, last.text))
    ensures TestModel(backend, url, model, apiKey, settings, parsers, Unreachable(OtherFault(msg))).status == "SUCCESS"
    ensures TestModel(backend, url, model, apiKey, settings, parsers,
              Answered(200, Lines(skipped) + [last] + rest, errorText)).status == "SUCCESS"
  {
    var posted := Unreachable(OtherFault(msg));
    RegisteredResponds(backend, url, model, "Hello", [], apiKey, settings, parsers, posted);
    UnexpectedErrorPassesCheck(backend, url, model, apiKey, settings, parsers, posted);
    var answered := Answered(200, Lines(skipped) + [last] + rest, errorText);
    RegisteredResponds(backend, url, model, "Hello", [], apiKey, settings, parsers, answered);
    SkippedThenAborted(backend, parsers, skipped, last, rest, errorText);
    UnexpectedErrorPassesCheck(backend, url, model, apiKey, settings, parsers, answered);
  }

  /**
   * The classification the check evidently intends: FAIL for a rejected status or an
   * exception, whatever its text; EMPTY_SUCCESS when the call completed without content;
   * and for a call that completed with content, the written text test.
   */
  function ClassifyOutcome(outcome: Outcome): HealthReport {
    var full := Concat(outcome.fragments);
    match outcome.end
    case Rejected(_) => HealthReport("FAIL", full)
    case Failed(_) => HealthReport("FAIL", full)
    case EmptyBody => HealthReport("EMPTY_SUCCESS", NoContent)
    case Completed =>
      if full == "" then HealthReport("EMPTY_SUCCESS", NoContent)
      else if Contains(full, "Error") then HealthReport("FAIL", full)
      else HealthReport("SUCCESS", full)
  }

  /** `test_model` with the intended classification. */
  function TestModelIntended(
    backend: string, url: string, model: string, apiKey: string,
    settings: Settings, parsers: Parsers, exchange: Exchange): HealthReport
  {
    ClassifyOutcome(GenerateResponse(backend, url, model, "Hello", [], apiKey, settings, parsers, exchange))
  }

  /**
   * The intended check fails exactly the calls that ended in an error, whatever their
   * text, and the completed ones whose content mentions "Error"; reports EMPTY_SUCCESS
   * exactly for a completed call with no content (the empty body included); and agrees
   * with the written check on every completed call with content.
   */
  lemma IntendedCheckFollowsEnd(
    backend: string, url: string, model: string, apiKey: string,
    settings: Settings, parsers: Parsers, exchange: Exchange)
    ensures var o := GenerateResponse(backend, url, model, "Hello", [], apiKey, settings, parsers, exchange);
      var h := TestModelIntended(backend, url, model, apiKey, settings, parsers, exchange);
      && (h.status == "FAIL" <==>
            o.end.Rejected? || o.end.Failed? || (o.end.Completed? && Contains(Concat(o.fragments), "Error")))
      && (h.status == "EMPTY_SUCCESS" <==> o.end.EmptyBody? || (o.end.Completed? && Concat(o.fragments) == ""))
      && (o.end.Completed? && Concat(o.fragments) != "" ==>
            h == TestModel(backend, url, model, apiKey, settings, parsers, exchange))
  {
  }

  /** Under the intended check a failed connection fails, whatever the exception says. */
  lemma IntendedCheckFailsFaults(
    backend: string, url: string, model: string, apiKey: string,
    settings: Settings, parsers: Parsers, fault: Fault)
    ensures TestModelIntended(backend, url, model, apiKey, settings, parsers, Unreachable(fault)).status == "FAIL"
  {
  }

  /** Under the intended check an empty 200 body is reported as EMPTY_SUCCESS with no content. */
  lemma IntendedCheckEmptySuccess(
    backend: string, url: string, model: string, apiKey: string,
    settings: Settings, parsers: Parsers, errorText: Option<string>)
    requires Lookup(backend).Some?
    ensures TestModelIntended(backend, url, model, apiKey, settings, parsers, Answered(200, [], errorText))
         == HealthReport("EMPTY_SUCCESS", NoContent)
  {
  }
}
