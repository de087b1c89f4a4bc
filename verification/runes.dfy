/**
 * The rune parser (`parse_gl`): each known rune of the input adds its value to one of
 * the parameters, runs the sub-runes of its script, may request a function call, and
 * leaves a note. Characters that are not runes are skipped.
 */
module Runes {
  import opened Wrappers

  datatype Param = GEm | Coherence | Zeta

  /**
   * One entry of the rune table. `valueText` is how the note prints the value (Python's
   * `str` of the float); `value` is the value itself, as an exact real.
   */
  datatype RuneInfo = RuneInfo(
    name: string, param: Option<Param>, value: real, valueText: string,
    script: seq<char>, functionCall: bool)

  const Excite: char := 'ᚲ'
  const Cohere: char := 'ᛚ'
  const Vitalize: char := 'ᛞ'
  const Ur: char := 'ᚢ'

  /** The rune table. */
  function RuneDict(c: char): (r: Option<RuneInfo>)
    ensures r.Some? <==> c == Excite || c == Cohere || c == Vitalize
  {
    if c == Excite then Some(RuneInfo("EXCITE", Some(GEm), 1.0, "1.0", [], false))
    else if c == Cohere then Some(RuneInfo("COHERE", Some(Coherence), 0.9, "0.9", [], false))
    else if c == Vitalize then Some(RuneInfo("VITALIZE", None, 1.0, "1.0", [Cohere, Ur], true))
    else None
  }

  datatype Params = Params(gEm: real, coherence: real, zeta: real, notes: seq<string>)

  datatype Parse = Parsed(params: Params, functionCall: bool) | ParseError

  const Initial := Params(0.0, 0.0, 0.0, [])

  function Add(p: Params, param: Param, v: real): Params {
    match param
    case GEm => p.(gEm := p.gEm + v)
    case Coherence => p.(coherence := p.coherence + v)
    case Zeta => p.(zeta := p.zeta + v)
  }

  /**
   * The script of a rune. A known sub-rune without a parameter of its own raises
   * `KeyError`, which ends the parse with an error; unknown sub-runes are skipped.
   */
  function RunScript(p: Params, script: seq<char>): Option<Params>
    decreases |script|
  {
    if |script| == 0 then Some(p)
    else
      match RuneDict(script[0])
      case None => RunScript(p, script[1..])
      case Some(sub) =>
        match sub.param
        case None => None
        case Some(param) => RunScript(Add(p, param, sub.value), script[1..])
  }

  function NoteOf(info: RuneInfo): string {
    "Applied " + info.name + ": " + info.valueText
  }

  /** One character of the input. */
  function Apply(state: Parse, c: char): Parse {
    match state
    case ParseError => ParseError
    case Parsed(p, fc) =>
      match RuneDict(c)
      case None => state
      case Some(info) =>
        var p1 := if info.param.Some? then Add(p, info.param.value, info.value) else p;
        match RunScript(p1, info.script)
        case None => ParseError
        case Some(p2) => Parsed(p2.(notes := p2.notes + [NoteOf(info)]), fc || info.functionCall)
  }

  /** `parse_gl`, folding over the input from the left. */
  function ParseGl(s: seq<char>): Parse
    decreases |s|
  {
    if |s| == 0 then Parsed(Initial, false) else Apply(ParseGl(s[..|s| - 1]), s[|s| - 1])
  }

  /** The number of times `c` occurs in `s`. */
  function Count(s: seq<char>, c: char): nat
    decreases |s|
  {
    if |s| == 0 then 0 else Count(s[..|s| - 1], c) + (if s[|s| - 1] == c then 1 else 0)
  }

  lemma {:induction false} CountAppend(a: seq<char>, b: seq<char>, c: char)
    ensures Count(a + b, c) == Count(a, c) + Count(b, c)
    decreases |b|
  {
    if |b| == 0 {
      assert a + b == a;
    } else {
      assert (a + b)[..|a + b| - 1] == a + b[..|b| - 1];
      CountAppend(a, b[..|b| - 1], c);
    }
  }

  lemma {:induction false} CountZeroIffAbsent(s: seq<char>, c: char)
    ensures Count(s, c) == 0 <==> c !in s
    decreases |s|
  {
    if |s| > 0 {
      CountZeroIffAbsent(s[..|s| - 1], c);
      assert s == s[..|s| - 1] + [s[|s| - 1]];
    }
  }

  /** VITALIZE's script adds one COHERE and skips the unknown rune after it. */
  lemma VitalizeScript(p: Params)
    ensures RunScript(p, [Cohere, Ur]) == Some(p.(coherence := p.coherence + 0.9))
  {
    var p1 := Add(p, Coherence, 0.9);
    assert RuneDict(Cohere).value.param == Some(Coherence);
    assert RunScript(p1, []) == Some(p1);
    assert RunScript(p1, [Ur]) == Some(p1) by {
      assert RuneDict(Ur).None?;
      assert [Ur][1..] == [];
    }
    assert [Cohere, Ur][1..] == [Ur];
  }

  /** The three notes the table can produce. */
  predicate KnownNote(note: string) {
    note == "Applied EXCITE: 1.0" || note == "Applied COHERE: 0.9" || note == "Applied VITALIZE: 1.0"
  }

  /**
   * What `parse_gl` accumulates, in terms of the input alone: the table's scripts never
   * raise, g_EM is 1.0 per EXCITE, coherence is 0.9 per COHERE and per VITALIZE (whose
   * script holds one COHERE), and zeta stays 0.
   */
  lemma {:induction false} ParseGlCounts(s: seq<char>)
    ensures ParseGl(s).Parsed?
    ensures var p := ParseGl(s).params;
      && p.gEm == Count(s, Excite) as real
      && p.coherence == 0.9 * (Count(s, Cohere) + Count(s, Vitalize)) as real
      && p.zeta == 0.0
    decreases |s|
  {
    if |s| > 0 {
      var init := s[..|s| - 1];
      ParseGlCounts(init);
      if s[|s| - 1] == Vitalize {
        VitalizeScript(ParseGl(init).params);
      }
    }
  }

  /** One note per known rune, each one of the table's three notes. */
  lemma {:induction false} ParseGlNotes(s: seq<char>)
    ensures ParseGl(s).Parsed?
    ensures var notes := ParseGl(s).params.notes;
      && |notes| == Count(s, Excite) + Count(s, Cohere) + Count(s, Vitalize)
      && (forall k :: 0 <= k < |notes| ==> KnownNote(notes[k]))
    decreases |s|
  {
    ParseGlCounts(s);
    if |s| > 0 {
      var init := s[..|s| - 1];
      ParseGlNotes(init);
      ApplyNotes(ParseGl(init), s[|s| - 1]);
    }
  }

  /** A function call is requested iff VITALIZE occurs in the input. */
  lemma {:induction false} ParseGlFunctionCall(s: seq<char>)
    ensures ParseGl(s).Parsed?
    ensures ParseGl(s).functionCall <==> Vitalize in s
    decreases |s|
  {
    ParseGlCounts(s);
    if |s| > 0 {
      var init := s[..|s| - 1];
      ParseGlFunctionCall(init);
      ParseGlCounts(init);
      assert s == init + [s[|s| - 1]];
      if s[|s| - 1] == Vitalize {
        VitalizeScript(ParseGl(init).params);
      }
    }
  }

  /** A character outside the table changes nothing. */
  lemma UnknownCharIgnored(s: seq<char>, c: char)
    requires RuneDict(c).None?
    ensures ParseGl(s + [c]) == ParseGl(s)
  {
    assert (s + [c])[..|s + [c]| - 1] == s;
  }

  /**
   * Parsing is additive over concatenation: the parameters of `a + b` are the sums of
   * those of `a` and `b`, its notes are theirs in order, and it requests a function
   * call iff either part does.
   */
  lemma ParseGlAppend(a: seq<char>, b: seq<char>)
    ensures ParseGl(a).Parsed? && ParseGl(b).Parsed? && ParseGl(a + b).Parsed?
    ensures var pa, pb, pab := ParseGl(a).params, ParseGl(b).params, ParseGl(a + b).params;
      && pab.gEm == pa.gEm + pb.gEm
      && pab.coherence == pa.coherence + pb.coherence
      && pab.notes == pa.notes + pb.notes
      && (ParseGl(a + b).functionCall <==> ParseGl(a).functionCall || ParseGl(b).functionCall)
  {
    ParseGlCounts(a);
    ParseGlCounts(b);
    ParseGlCounts(a + b);
    ParseGlFunctionCall(a);
    ParseGlFunctionCall(b);
    ParseGlFunctionCall(a + b);
    CountAppend(a, b, Excite);
    CountAppend(a, b, Cohere);
    CountAppend(a, b, Vitalize);
    CountZeroIffAbsent(a, Vitalize);
    CountZeroIffAbsent(b, Vitalize);
    CountZeroIffAbsent(a + b, Vitalize);
    NotesAppend(a, b);
  }

  /** The notes of one known rune: its own note, after those already there. */
  lemma ApplyNotes(st: Parse, c: char)
    requires st.Parsed?
    ensures Apply(st, c).Parsed?
    ensures Apply(st, c).params.notes
         == st.params.notes + (if RuneDict(c).Some? then [NoteOf(RuneDict(c).value)] else [])
  {
    if c == Vitalize {
      VitalizeScript(st.params);
    }
  }

  lemma {:induction false} NotesAppend(a: seq<char>, b: seq<char>)
    ensures ParseGl(a).Parsed? && ParseGl(b).Parsed? && ParseGl(a + b).Parsed?
    ensures ParseGl(a + b).params.notes == ParseGl(a).params.notes + ParseGl(b).params.notes
    decreases |b|
  {
    ParseGlCounts(a);
    ParseGlCounts(b);
    ParseGlCounts(a + b);
    if |b| == 0 {
      assert a + b == a;
    } else {
      var b' := b[..|b| - 1];
      var c := b[|b| - 1];
      assert (a + b)[..|a + b| - 1] == a + b';
      NotesAppend(a, b');
      ApplyNotes(ParseGl(a + b'), c);
      ApplyNotes(ParseGl(b'), c);
    }
  }

  /** The input field's own example, "ᚲᛚᛞ": one of each rune, so coherence is counted twice. */
  lemma ExampleRuneString()
    ensures ParseGl([Excite, Cohere, Vitalize])
         == Parsed(Params(1.0, 1.8, 0.0, ["Applied EXCITE: 1.0", "Applied COHERE: 0.9", "Applied VITALIZE: 1.0"]), true)
  {
    var s := [Excite, Cohere, Vitalize];
    assert s[..2] == [Excite, Cohere];
    assert s[..2][..1] == [Excite];
    assert s[..2][..1][..0] == [];
    assert NoteOf(RuneDict(Excite).value) == "Applied EXCITE: 1.0";
    assert NoteOf(RuneDict(Cohere).value) == "Applied COHERE: 0.9";
    assert NoteOf(RuneDict(Vitalize).value) == "Applied VITALIZE: 1.0";
    assert ParseGl([]) == Parsed(Initial, false);
    var p1 := Params(1.0, 0.0, 0.0, ["Applied EXCITE: 1.0"]);
    assert ParseGl([Excite]) == Parsed(p1, false);
    var p2 := Params(1.0, 0.9, 0.0, ["Applied EXCITE: 1.0", "Applied COHERE: 0.9"]);
    assert ParseGl([Excite, Cohere]) == Parsed(p2, false);
    VitalizeScript(p2);
  }
}
