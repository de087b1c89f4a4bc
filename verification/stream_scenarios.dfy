/**
 * Concrete exchanges: the documented NDJSON and SSE examples, a malformed line between
 * two good ones, a 404 and an empty 200 body. JSON decoding is given as a table of the
 * texts that occur.
 */
module StreamScenarios {
  import opened Wrappers
  import opened Text
  import opened Backends
  import opened Stream
  import opened StreamLemmas

  const Settings0 := Settings("system", 1.0, 0.95, 40000)

  const HiJson := "{\"message\":{\"content\":\"Hi\"}}"
  const ThereJson := "{\"message\":{\"content\":\" there\"},\"done\":true}"

  /** `json.loads` plus the field lookups, for the two lines of the NDJSON example. */
  function OllamaTable(text: string): NdChunk {
    if text == HiJson then NdObject("Hi", false)
    else if text == ThereJson then NdObject(" there", true)
    else NdMalformed
  }

  const SseHiJson := "{\"choices\":[{\"delta\":{\"content\":\"Hi\"}}]}"

  function SseTable(text: string): SseChunk {
    if text == SseHiJson then SseDelta("Hi") else SseMalformed
  }

  const Table := Parsers(OllamaTable, SseTable)

  /** Two NDJSON lines, the second with `done: true`, yield "Hi" then " there". */
  lemma NdjsonExample(url: string, model: string, prompt: string, apiKey: string)
    ensures GenerateResponse(Ollama, url, model, prompt, [], apiKey, Settings0, Table,
              Answered(200, [Line(HiJson + "\n"), Line(ThereJson + "\n")], None))
         == Outcome(["Hi", " there"], [], Completed)
  {
    StripDropsNewline(HiJson);
    StripDropsNewline(ThereJson);
    var texts := [HiJson + "\n", ThereJson + "\n"];
    assert Lines(texts) == [Line(HiJson + "\n"), Line(ThereJson + "\n")];
    assert texts[..1] == [HiJson + "\n"];
    assert AllOrdinary(Ollama, Table, texts[..1]);
    StopsAtFirstTerminal(Ollama, Table, texts, 1);
    assert texts[..2] == texts;
    assert Contents(Ollama, Table, texts) == ["Hi", " there"];
    RegisteredResponds(Ollama, url, model, prompt, [], apiKey, Settings0, Table, Answered(200, Lines(texts), None));
  }

  lemma SseHiLine()
    ensures Ordinary(LMStudio, Table, "data: " + SseHiJson + "\n")
    ensures ContentOf(LMStudio, Table, "data: " + SseHiJson + "\n") == "Hi"
  {
    StripDropsNewline("data: " + SseHiJson);
    StripFixedPoint(SseHiJson);
    assert ("data: " + SseHiJson)[|DataPrefix|..] == SseHiJson;
    assert StartsWith("data: " + SseHiJson, DataPrefix);
  }

  lemma BlankLine()
    ensures Ordinary(LMStudio, Table, "\n")
    ensures ContentOf(LMStudio, Table, "\n") == ""
  {
    StripSpec("\n");
  }

  lemma SseDoneLine()
    ensures Terminates(LMStudio, Table, "data: [DONE]\n")
    ensures ContentOf(LMStudio, Table, "data: [DONE]\n") == ""
  {
    StripDropsNewline("data: [DONE]");
    StripFixedPoint(DoneMarker);
    assert "data: [DONE]"[|DataPrefix|..] == DoneMarker;
    assert StartsWith("data: [DONE]", DataPrefix);
    assert DoneMarker[0] == '[' && DoneMarker[|DoneMarker| - 1] == ']';
    assert Strip(DoneMarker) == DoneMarker;
    assert DataPayload("data: [DONE]") == Some(DoneMarker);
    assert "data: [DONE]" + "\n" == "data: [DONE]\n";
    assert LMStudio != Ollama;
  }

  const SseTexts := ["data: " + SseHiJson + "\n", "\n", "data: [DONE]\n"]

  /** The three SSE lines carry "Hi", then nothing, then nothing. */
  lemma SseContents()
    ensures Contents(LMStudio, Table, SseTexts) == ["Hi", "", ""]
  {
    SseHiLine();
    BlankLine();
    SseDoneLine();
    ContentsOfThree(LMStudio, Table, SseTexts[0], SseTexts[1], SseTexts[2]);
    assert SseTexts == [SseTexts[0], SseTexts[1], SseTexts[2]];
  }

  lemma SseLoop()
    ensures ReadLoop(LineRule(LMStudio, Table), Lines(SseTexts)) == Loop(["Hi"], Marker)
  {
    SseHiLine();
    BlankLine();
    SseDoneLine();
    var texts := SseTexts;
    assert texts[..2] == ["data: " + SseHiJson + "\n", "\n"];
    AllOrdinaryEveryLine(LMStudio, Table, texts[..2]);
    StopsAtFirstTerminal(LMStudio, Table, texts, 2);
    assert texts[..3] == texts;
    SseContents();
    assert NonEmpty([""]) == [];
    assert NonEmpty(["", ""]) == [];
    assert NonEmpty(["Hi", "", ""]) == ["Hi"];
  }

  /** An SSE data line, a blank separator, and `data: [DONE]` yield just "Hi". */
  lemma SseExample(url: string, model: string, prompt: string, apiKey: string)
    ensures GenerateResponse(LMStudio, url, model, prompt, [], apiKey, Settings0, Table,
              Answered(200, [Line("data: " + SseHiJson + "\n"), Line("\n"), Line("data: [DONE]\n")], None))
         == Outcome(["Hi"], [], Completed)
  {
    var body := [Line("data: " + SseHiJson + "\n"), Line("\n"), Line("data: [DONE]\n")];
    SseLoop();
    assert Lines(SseTexts) == body;
    RegisteredResponds(LMStudio, url, model, prompt, [], apiKey, Settings0, Table, Answered(200, body, None));
  }

  /**
   * One undecodable NDJSON line between two good ones yields exactly the two good
   * contents and no error fragment.
   */
  lemma MalformedLineBetweenTwoGood(parsers: Parsers, first: string, bad: string, second: string, c1: string, c2: string)
    requires Strip(first) != "" && parsers.ndjson(Strip(first)) == NdObject(c1, false) && c1 != ""
    requires Strip(bad) != "" && parsers.ndjson(Strip(bad)) == NdMalformed
    requires Strip(second) != "" && parsers.ndjson(Strip(second)) == NdObject(c2, false) && c2 != ""
    ensures Respond(Ollama, parsers, Answered(200, Lines([first, bad, second]), None)) == Outcome([c1, c2], [], Completed)
  {
    var texts := [first, bad, second];
    assert Ordinary(Ollama, parsers, texts[0]) && Ordinary(Ollama, parsers, texts[1]) && Ordinary(Ollama, parsers, texts[2]);
    AllOrdinaryEveryLine(Ollama, parsers, texts);
    OrdinaryStream(Ollama, parsers, texts);
    assert Contents(Ollama, parsers, texts) == [c1, "", c2];
    assert NonEmpty([c2]) == [c2];
    assert NonEmpty(["", c2]) == [c2];
    assert NonEmpty([c1, "", c2]) == [c1, c2];
  }

  /** A 404 yields one fragment naming the status, whatever the body holds. */
  lemma NotFoundExample(parsers: Parsers, body: seq<Read>)
    ensures Respond(LMStudio, parsers, Answered(404, body, Some("not found")))
         == Outcome(["Error from AI provider (Status 404). Check logs."], [ApiError(404, "not found")], Rejected(404))
  {
    assert DigitChar(4) == '4' && DigitChar(0) == '0';
    assert NatToString(4) == "4";
    assert NatToString(40) == "40";
    assert NatToString(404) == "404";
    assert StatusFragment(404) == StatusPrefix + "404" + StatusSuffix;
    assert StatusPrefix + "404" + StatusSuffix == "Error from AI provider (Status 404). Check logs.";
  }

  /** A 200 reply with no body at all yields the empty-response sentinel. */
  lemma EmptyBodyExample(parsers: Parsers)
    ensures Respond(Ollama, parsers, Answered(200, [], None)).fragments == ["[Empty response]"]
  {
  }
}
