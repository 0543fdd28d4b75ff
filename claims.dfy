/**
 * Claim extraction: the parser that turns the language model's reply into
 * claim tuples, and the keyword rule that labels sentences as merit or
 * importance claims. Lines cited are in
 * src/pipeline_steps/step2_extract_claims.py.
 */
module ClaimExtraction {
  import opened Wrappers
  import opened Text
  import opened Seqs

  /**
   * A claim tuple, read by position. The reply parser fills it as
   * (type, text, evidence); the keyword extractor as (text, type, evidence).
   */
  type ClaimTuple = (string, string, string)

  const TypePrefix := "CLAIM TYPE:"
  const TextPrefix := "CLAIM TEXT:"
  const EvidencePrefix := "EVIDENCE:"

  // ---------------------------------------------------------------------
  // Reply parser (lines 186-213)

  /**
   * The parser between two lines: the tuples emitted so far and the
   * `current_claim` dictionary, keyed by "type", "text" and "evidence".
   */
  datatype ParserState = ParserState(claims: seq<ClaimTuple>, current: map<string, string>)

  const Start := ParserState([], map[])

  lemma PrefixColon(line: string, p: string)
    requires StartsWith(line, p) && |p| > 0 && p[|p| - 1] == ':'
    ensures ':' in line
  {
    assert line[|p| - 1] == line[..|p|][|p| - 1];
  }

  /** `line.split(':')[1].strip()`: the text between the first and second colon, stripped. */
  function FieldValue(line: string): string
    requires ':' in line
  {
    Strip(Split(line, ':')[1])
  }

  /**
   * The tuple a non-empty `current_claim` turns into (lines 193-198 and
   * 206-211), reading "type", "text" and "evidence" in that order; the
   * first missing key raises KeyError.
   */
  function Flush(claims: seq<ClaimTuple>, current: map<string, string>): Result<seq<ClaimTuple>, KeyError> {
    if current == map[] then Ok(claims)
    else if "type" !in current then Err(KeyError("type"))
    else if "text" !in current then Err(KeyError("text"))
    else if "evidence" !in current then Err(KeyError("evidence"))
    else Ok(claims + [(current["type"], current["text"], current["evidence"])])
  }

  /** A `CLAIM TYPE:` line: flush the current claim, then start one holding only its type. */
  function NewClaim(st: ParserState, claimType: string): Result<ParserState, KeyError> {
    match Flush(st.claims, st.current)
    case Err(e) => Err(e)
    case Ok(claims) => Ok(ParserState(claims, map["type" := claimType]))
  }

  /** One pass of the loop at lines 190-203. */
  function StepLine(st: ParserState, raw: string): Result<ParserState, KeyError> {
    var line := Strip(raw);
    if StartsWith(line, TypePrefix) then
      PrefixColon(line, TypePrefix);
      NewClaim(st, Lower(FieldValue(line)))
    else if StartsWith(line, TextPrefix) then
      PrefixColon(line, TextPrefix);
      Ok(st.(current := st.current["text" := FieldValue(line)]))
    else if StartsWith(line, EvidencePrefix) then
      PrefixColon(line, EvidencePrefix);
      Ok(st.(current := st.current["evidence" := FieldValue(line)]))
    else Ok(st)
  }

  /** The loop over the remaining lines, then the final flush. */
  function Run(st: ParserState, lines: seq<string>): Result<seq<ClaimTuple>, KeyError>
    decreases |lines|
  {
    if lines == [] then Flush(st.claims, st.current)
    else
      match StepLine(st, lines[0])
      case Err(e) => Err(e)
      case Ok(next) => Run(next, lines[1..])
  }

  /** The claims parsed from a reply, or the KeyError the parser raises. */
  function ParseResponse(response: string): Result<seq<ClaimTuple>, KeyError> {
    Run(Start, Split(response, '\n'))
  }

  /**
   * The parsing part of `extract_claims_anthropic`: walks the reply line by
   * line, flushing the current claim at each `CLAIM TYPE:` line and at the
   * end. The reply text stands for the model's answer.
   */
  method ExtractClaimsFromResponse(response: string) returns (result: Result<seq<ClaimTuple>, KeyError>)
    ensures result == ParseResponse(response)
  {
    var lines := Split(response, '\n');
    result := ParseLines(lines);
  }

  /** The loop at lines 190-203 over the reply's lines, then the final flush at lines 206-211. */
  method ParseLines(lines: seq<string>) returns (result: Result<seq<ClaimTuple>, KeyError>)
    ensures result == Run(Start, lines)
  {
    var claims: seq<ClaimTuple> := [];
    var current: map<string, string> := map[];
    for i := 0 to |lines|
      invariant Run(Start, lines) == Run(ParserState(claims, current), lines[i..])
    {
      RunStep(ParserState(claims, current), lines[i..]);
      assert lines[i..][0] == lines[i] && lines[i..][1..] == lines[i + 1..];
      var step := ParseLine(claims, current, lines[i]);
      if step.Err? {
        return Err(step.error);
      }
      claims, current := step.value.claims, step.value.current;
    }
    assert lines[|lines|..] == [];
    result := FlushClaim(claims, current);
  }

  /** The body of the loop at lines 190-203, for one line of the reply. */
  method ParseLine(claims: seq<ClaimTuple>, current: map<string, string>, raw: string)
    returns (step: Result<ParserState, KeyError>)
    ensures step == StepLine(ParserState(claims, current), raw)
  {
    var line := Strip(raw);
    if StartsWith(line, TypePrefix) {
      var flushed := FlushClaim(claims, current);
      if flushed.Err? {
        return Err(flushed.error);
      }
      PrefixColon(line, TypePrefix);
      step := Ok(ParserState(flushed.value, map["type" := Lower(Strip(Split(line, ':')[1]))]));
    } else if StartsWith(line, TextPrefix) {
      PrefixColon(line, TextPrefix);
      step := Ok(ParserState(claims, current["text" := Strip(Split(line, ':')[1])]));
    } else if StartsWith(line, EvidencePrefix) {
      PrefixColon(line, EvidencePrefix);
      step := Ok(ParserState(claims, current["evidence" := Strip(Split(line, ':')[1])]));
    } else {
      step := Ok(ParserState(claims, current));
    }
  }

  /**
   * `if current_claim: claims.append((current_claim['type'], ...))`, written
   * twice in the source (lines 193-198 and 206-211).
   */
  method FlushClaim(claims: seq<ClaimTuple>, current: map<string, string>)
    returns (result: Result<seq<ClaimTuple>, KeyError>)
    ensures result == Flush(claims, current)
  {
    if current == map[] {
      return Ok(claims);
    }
    if "type" !in current {
      return Err(KeyError("type"));
    }
    if "text" !in current {
      return Err(KeyError("text"));
    }
    if "evidence" !in current {
      return Err(KeyError("evidence"));
    }
    result := Ok(claims + [(current["type"], current["text"], current["evidence"])]);
  }

  /** Run over a non-empty list of lines takes one step, then runs over the rest. */
  lemma RunStep(st: ParserState, lines: seq<string>)
    requires lines != []
    ensures Run(st, lines) == match StepLine(st, lines[0])
                              case Err(e) => Err(e)
                              case Ok(next) => Run(next, lines[1..])
  {
  }

  /** `extract_claims_combined` (lines 215-249) returns the reply parser's list unchanged. */
  method ExtractClaimsCombined(response: string) returns (result: Result<seq<ClaimTuple>, KeyError>)
    ensures result == ParseResponse(response)
  {
    result := ExtractClaimsFromResponse(response);
  }

  // Properties of the parser

  /** The number of lines that, once stripped, start with `CLAIM TYPE:`. */
  function TypeLineCount(lines: seq<string>): nat {
    if lines == [] then 0
    else (if StartsWith(Strip(lines[0]), TypePrefix) then 1 else 0) + TypeLineCount(lines[1..])
  }

  /** A dictionary holding a text or evidence but no type fails at the next flush. */
  lemma {:induction false} RunUntypedFails(st: ParserState, lines: seq<string>)
    requires st.current != map[] && "type" !in st.current
    ensures Run(st, lines).Err?
    decreases |lines|
  {
    if lines != [] {
      var line := Strip(lines[0]);
      if !StartsWith(line, TypePrefix) {
        var next := StepLine(st, lines[0]).value;
        assert next.current != map[] && "type" !in next.current by {
          if StartsWith(line, TextPrefix) {
            assert "text" in next.current;
          } else if StartsWith(line, EvidencePrefix) {
            assert "evidence" in next.current;
          }
        }
        RunUntypedFails(next, lines[1..]);
      }
    }
  }

  /**
   * From a state whose dictionary is empty or typed, a run that succeeds
   * emits one tuple per `CLAIM TYPE:` line, plus one for a pending claim.
   */
  lemma {:induction false} RunCount(st: ParserState, lines: seq<string>)
    requires st.current == map[] || "type" in st.current
    ensures Run(st, lines).Ok? ==>
            |Run(st, lines).value| == |st.claims| + TypeLineCount(lines) + (if st.current != map[] then 1 else 0)
    decreases |lines|
  {
    if lines != [] && Run(st, lines).Ok? {
      var line := Strip(lines[0]);
      var next := StepLine(st, lines[0]).value;
      if StartsWith(line, TypePrefix) {
        RunCount(next, lines[1..]);
      } else if st.current == map[] && (StartsWith(line, TextPrefix) || StartsWith(line, EvidencePrefix)) {
        assert next.current != map[] && "type" !in next.current by {
          if StartsWith(line, TextPrefix) {
            assert "text" in next.current;
          } else {
            assert "evidence" in next.current;
          }
        }
        RunUntypedFails(next, lines[1..]);
      } else {
        RunCount(next, lines[1..]);
      }
    }
  }

  /**
   * A reply that parses without a KeyError yields exactly one tuple per
   * `CLAIM TYPE:` line: each such line flushes the claim before it, and the
   * last claim is flushed at the end.
   */
  lemma ParseCount(response: string)
    ensures ParseResponse(response).Ok? ==>
            |ParseResponse(response).value| == TypeLineCount(Split(response, '\n'))
  {
    RunCount(Start, Split(response, '\n'));
  }

  /** The shape of every field the parser produces. */
  predicate ParsedField(v: string) {
    IsStripped(v) && ':' !in v
  }

  /** A parsed tuple: stripped fields without colons, and a lower-case type. */
  predicate ParsedClaim(c: ClaimTuple) {
    ParsedField(c.0) && IsLowerCase(c.0) && ParsedField(c.1) && ParsedField(c.2)
  }

  predicate ParsedState(st: ParserState) {
    (forall i :: 0 <= i < |st.claims| ==> ParsedClaim(st.claims[i])) &&
    ("type" in st.current ==> ParsedField(st.current["type"]) && IsLowerCase(st.current["type"])) &&
    ("text" in st.current ==> ParsedField(st.current["text"])) &&
    ("evidence" in st.current ==> ParsedField(st.current["evidence"]))
  }

  lemma FieldValueShape(line: string)
    requires ':' in line
    ensures ParsedField(FieldValue(line))
    ensures ParsedField(Lower(FieldValue(line))) && IsLowerCase(Lower(FieldValue(line)))
  {
    var v := FieldValue(line);
    StrippedField(Split(line, ':')[1]);
    LoweredField(v);
  }

  lemma StrippedField(part: string)
    requires ':' !in part
    ensures ParsedField(Strip(part))
  {
    StripIsStripped(part);
    if ':' in Strip(part) {
      StripChars(part, ':');
    }
  }

  lemma LoweredField(v: string)
    requires ParsedField(v)
    ensures ParsedField(Lower(v)) && IsLowerCase(Lower(v))
  {
    LowerKeepsStripped(v);
    LowerIsLowerCase(v);
    if ':' in Lower(v) {
      LowerChars(v, ':');
    }
  }

  /** Flushing a well-shaped dictionary appends a well-shaped tuple. */
  lemma FlushShape(st: ParserState)
    requires ParsedState(st) && Flush(st.claims, st.current).Ok?
    ensures forall i :: 0 <= i < |Flush(st.claims, st.current).value| ==> ParsedClaim(Flush(st.claims, st.current).value[i])
  {
    var r := Flush(st.claims, st.current).value;
    if st.current != map[] {
      var c := (st.current["type"], st.current["text"], st.current["evidence"]);
      assert r == st.claims + [c];
      assert ParsedClaim(c);
    }
  }

  /** Starting a claim with a well-shaped type keeps the state well shaped. */
  lemma NewClaimShape(st: ParserState, v: string)
    requires ParsedState(st) && NewClaim(st, v).Ok?
    requires ParsedField(v) && IsLowerCase(v)
    ensures ParsedState(NewClaim(st, v).value)
  {
    FlushShape(st);
  }

  /** Setting the text or the evidence to a well-shaped value keeps the state well shaped. */
  lemma SetFieldShape(st: ParserState, k: string, v: string)
    requires ParsedState(st) && ParsedField(v) && (k == "text" || k == "evidence")
    ensures ParsedState(st.(current := st.current[k := v]))
  {
    KeysDistinct();
  }

  lemma StepShape(st: ParserState, raw: string)
    requires ParsedState(st) && StepLine(st, raw).Ok?
    ensures ParsedState(StepLine(st, raw).value)
  {
    var line := Strip(raw);
    if StartsWith(line, TypePrefix) {
      PrefixColon(line, TypePrefix);
      FieldValueShape(line);
      NewClaimShape(st, Lower(FieldValue(line)));
    } else if StartsWith(line, TextPrefix) {
      PrefixColon(line, TextPrefix);
      FieldValueShape(line);
      SetFieldShape(st, "text", FieldValue(line));
    } else if StartsWith(line, EvidencePrefix) {
      PrefixColon(line, EvidencePrefix);
      FieldValueShape(line);
      SetFieldShape(st, "evidence", FieldValue(line));
    }
  }

  lemma {:induction false} RunShape(st: ParserState, lines: seq<string>)
    requires ParsedState(st)
    ensures Run(st, lines).Ok? ==> forall i :: 0 <= i < |Run(st, lines).value| ==> ParsedClaim(Run(st, lines).value[i])
    decreases |lines|
  {
    if lines != [] && StepLine(st, lines[0]).Ok? {
      StepShape(st, lines[0]);
      RunShape(StepLine(st, lines[0]).value, lines[1..]);
    }
  }

  /**
   * Every tuple the parser emits has a stripped, lower-cased type and a
   * stripped text and evidence, none holding a colon: a colon inside a
   * value cuts the value short.
   */
  lemma ParseShape(response: string)
    ensures ParseResponse(response).Ok? ==>
            forall i :: 0 <= i < |ParseResponse(response).value| ==> ParsedClaim(ParseResponse(response).value[i])
  {
    RunShape(Start, Split(response, '\n'));
  }

  // Round trip with the reply format the prompt asks for (lines 170-172)

  /** A value the prompt's format can carry and the parser gives back unchanged. */
  predicate Renderable(v: string) {
    v != [] && IsStripped(v) && ':' !in v && '\n' !in v
  }

  predicate RenderableClaim(c: ClaimTuple) {
    Renderable(c.0) && IsLowerCase(c.0) && Renderable(c.1) && Renderable(c.2)
  }

  /** The three lines the prompt asks for per claim. */
  function RenderLines(cs: seq<ClaimTuple>): (lines: seq<string>)
    ensures |lines| == 3 * |cs|
  {
    if cs == [] then []
    else [TypePrefix + " " + cs[0].0, TextPrefix + " " + cs[0].1, EvidencePrefix + " " + cs[0].2] + RenderLines(cs[1..])
  }

  /** A reply in the requested format. */
  function Render(cs: seq<ClaimTuple>): string {
    Join("\n", RenderLines(cs))
  }

  lemma KeysDistinct()
    ensures "type" != "text" && "type" != "evidence" && "text" != "evidence"
  {
    assert "type"[1] != "text"[1];
  }

  /** The empty reply holds no claim. */
  lemma ParseEmpty()
    ensures ParseResponse("") == Ok([])
  {
    SplitNone("", '\n');
    BlankLineStep(Start);
    RunThrough(Start, [""], Start);
    assert [""][1..] == [];
  }

  /** A blank line changes nothing. */
  lemma BlankLineStep(st: ParserState)
    ensures StepLine(st, "") == Ok(st)
  {
    assert Strip("") == "";
  }

  /** A line prefix whose only colon ends it, as the three prefixes are. */
  predicate ColonLast(p: string) {
    |p| > 1 && p[|p| - 1] == ':' && ':' !in p[..|p| - 1] && !IsSpace(p[0])
  }

  lemma PrefixesColonLast()
    ensures ColonLast(TypePrefix) && ColonLast(TextPrefix) && ColonLast(EvidencePrefix)
  {
    assert TypePrefix[..|TypePrefix| - 1] == "CLAIM TYPE";
    assert TextPrefix[..|TextPrefix| - 1] == "CLAIM TEXT";
    assert EvidencePrefix[..|EvidencePrefix| - 1] == "EVIDENCE";
  }

  /** `p v` is left alone by `strip`, starts with `p`, and its field value is `v`. */
  lemma FieldLine(p: string, v: string)
    requires ColonLast(p)
    requires v != [] && IsStripped(v) && ':' !in v
    ensures Strip(p + " " + v) == p + " " + v
    ensures StartsWith(p + " " + v, p)
    ensures ':' in p + " " + v
    ensures FieldValue(p + " " + v) == v
  {
    FieldLineStripped(p, v);
    FieldLineSplit(p, v);
    StripSpaceThen(v);
  }

  lemma FieldLineStripped(p: string, v: string)
    requires ColonLast(p)
    requires v != [] && IsStripped(v)
    ensures Strip(p + " " + v) == p + " " + v
  {
    var line := p + " " + v;
    assert line[0] == p[0] && line[|line| - 1] == v[|v| - 1];
    StrippedIsFixed(line);
  }

  lemma FieldLineSplit(p: string, v: string)
    requires ColonLast(p)
    requires ':' !in v
    ensures StartsWith(p + " " + v, p)
    ensures ':' in p + " " + v
    ensures Split(p + " " + v, ':') == [p[..|p| - 1], " " + v]
  {
    FieldLineShape(p, v);
    SpaceThenNoColon(v);
    SplitAtFirst(p[..|p| - 1], " " + v, ':');
    SplitNone(" " + v, ':');
  }

  lemma FieldLineShape(p: string, v: string)
    requires ColonLast(p)
    ensures StartsWith(p + " " + v, p)
    ensures ':' in p + " " + v
    ensures p + " " + v == p[..|p| - 1] + [':'] + (" " + v)
  {
    var line := p + " " + v;
    var name := p[..|p| - 1];
    assert line[..|p|] == p;
    assert p == name + [':'];
    assert line[|name|] == ':';
  }

  lemma SpaceThenNoColon(v: string)
    requires ':' !in v
    ensures ':' !in " " + v
  {
  }

  lemma StripSpaceThen(v: string)
    requires v != [] && IsStripped(v)
    ensures Strip(" " + v) == v
  {
    assert (" " + v)[1..] == v;
    assert StripLeft(" " + v) == StripLeft(v);
    StrippedIsFixed(v);
  }

  lemma RenderLinesNoNewline(cs: seq<ClaimTuple>)
    requires forall i :: 0 <= i < |cs| ==> RenderableClaim(cs[i])
    ensures forall k :: 0 <= k < |RenderLines(cs)| ==> '\n' !in RenderLines(cs)[k]
  {
    if cs != [] {
      RenderLinesNoNewline(cs[1..]);
      var rest := RenderLines(cs[1..]);
      var head := [TypePrefix + " " + cs[0].0, TextPrefix + " " + cs[0].1, EvidencePrefix + " " + cs[0].2];
      forall k | 0 <= k < |RenderLines(cs)| ensures '\n' !in RenderLines(cs)[k] {
        if k >= 3 {
          assert RenderLines(cs)[k] == rest[k - 3];
        }
      }
    }
  }

  /** At the end of the reply the pending claim, if any, is flushed. */
  lemma FlushPending(acc: seq<ClaimTuple>, prev: seq<ClaimTuple>)
    requires |prev| <= 1
    ensures Flush(acc, PendingOf(prev)) == Ok(acc + prev)
  {
    KeysDistinct();
    if prev != [] {
      var m := PendingOf(prev);
      assert "type" in m && "text" in m && "evidence" in m;
      assert prev == [(m["type"], m["text"], m["evidence"])];
    } else {
      assert acc + prev == acc;
    }
  }

  /** The three prefixes exclude each other. */
  lemma PrefixesExclusive(line: string)
    ensures StartsWith(line, TextPrefix) ==> !StartsWith(line, TypePrefix)
    ensures StartsWith(line, EvidencePrefix) ==> !StartsWith(line, TypePrefix) && !StartsWith(line, TextPrefix)
  {
    if StartsWith(line, TextPrefix) {
      assert line[..|TextPrefix|][7] == line[7] == 'E';
    }
    if StartsWith(line, EvidencePrefix) {
      assert line[..|EvidencePrefix|][0] == line[0] == 'E';
    }
  }

  lemma TypeLineStep(st: ParserState, t: string)
    requires Renderable(t)
    ensures StepLine(st, TypePrefix + " " + t) == NewClaim(st, Lower(t))
  {
    PrefixesColonLast();
    FieldLine(TypePrefix, t);
  }

  lemma TextLineStep(st: ParserState, x: string)
    requires Renderable(x)
    ensures StepLine(st, TextPrefix + " " + x) == Ok(st.(current := st.current["text" := x]))
  {
    PrefixesColonLast();
    FieldLine(TextPrefix, x);
    PrefixesExclusive(TextPrefix + " " + x);
  }

  lemma EvidenceLineStep(st: ParserState, e: string)
    requires Renderable(e)
    ensures StepLine(st, EvidencePrefix + " " + e) == Ok(st.(current := st.current["evidence" := e]))
  {
    PrefixesColonLast();
    FieldLine(EvidencePrefix, e);
    PrefixesExclusive(EvidencePrefix + " " + e);
  }

  /** A line that starts with none of the three prefixes leaves the parser as it was. */
  lemma OtherLineStep(st: ParserState, raw: string)
    requires !StartsWith(Strip(raw), TypePrefix) && !StartsWith(Strip(raw), TextPrefix)
    requires !StartsWith(Strip(raw), EvidencePrefix)
    ensures StepLine(st, raw) == Ok(st)
  {
  }

  /**
   * A colon inside a `CLAIM TEXT:` value cuts the value short: only the part
   * before it is kept, and whatever follows is dropped.
   */
  lemma TextLineCut(st: ParserState, x: string, w: string)
    requires Renderable(x) && w != [] && !IsSpace(w[|w| - 1])
    ensures StepLine(st, TextPrefix + " " + x + ":" + w) == Ok(st.(current := st.current["text" := x]))
  {
    var line := TextPrefix + " " + x + ":" + w;
    CutLineStripped(TextPrefix + " " + x, w);
    PrefixedLine(TextPrefix, x, w);
    PrefixesExclusive(line);
    PrefixesColonLast();
    CutValue(TextPrefix, x, w);
    TextStep(st, line, x);
  }

  lemma CutLineStripped(u: string, w: string)
    requires u != [] && !IsSpace(u[0]) && w != [] && !IsSpace(w[|w| - 1])
    ensures Strip(u + ":" + w) == u + ":" + w
  {
    var line := u + ":" + w;
    assert line[0] == u[0] && line[|line| - 1] == w[|w| - 1];
    StrippedIsFixed(line);
  }

  lemma PrefixedLine(p: string, x: string, w: string)
    ensures StartsWith(p + " " + x + ":" + w, p)
  {
    assert (p + " " + x + ":" + w)[..|p|] == p;
  }

  lemma TextStep(st: ParserState, line: string, x: string)
    requires Strip(line) == line && StartsWith(line, TextPrefix) && !StartsWith(line, TypePrefix)
    requires ':' in line && FieldValue(line) == x
    ensures StepLine(st, line) == Ok(st.(current := st.current["text" := x]))
  {
  }

  /** The field value of `p v:w` is `v`. */
  lemma CutValue(p: string, x: string, w: string)
    requires ColonLast(p) && Renderable(x)
    ensures ':' in p + " " + x + ":" + w
    ensures FieldValue(p + " " + x + ":" + w) == x
  {
    var line := p + " " + x + ":" + w;
    var name := p[..|p| - 1];
    assert line == name + [':'] + ((" " + x) + [':'] + w);
    SplitAtFirst(name, (" " + x) + [':'] + w, ':');
    assert ':' !in " " + x;
    SplitAtFirst(" " + x, w, ':');
    assert Split(line, ':')[1] == " " + x;
    assert StripLeft(" " + x) == StripLeft(x);
    StrippedIsFixed(x);
  }

  /** A step that succeeds hands the rest of the lines to the next state. */
  lemma RunThrough(st: ParserState, lines: seq<string>, next: ParserState)
    requires lines != [] && StepLine(st, lines[0]) == Ok(next)
    ensures Run(st, lines) == Run(next, lines[1..])
  {
  }

  /** A reply joined from lines free of newlines is parsed line by line. */
  lemma ParseJoined(lines: seq<string>)
    requires |lines| >= 1
    requires forall k :: 0 <= k < |lines| ==> '\n' !in lines[k]
    ensures ParseResponse(Join("\n", lines)) == Run(Start, lines)
  {
    SplitJoin(lines, '\n');
  }

  lemma PrefixesNoNewline()
    ensures '\n' !in TypePrefix && '\n' !in TextPrefix && '\n' !in EvidencePrefix
  {
  }

  /**
   * Before any `CLAIM TYPE:` line the dictionary holds no "type", so the
   * next `CLAIM TYPE:` line raises KeyError('type') when it flushes.
   */
  lemma TextBeforeTypeRaises(x: string, t: string)
    requires Renderable(x) && Renderable(t)
    ensures ParseResponse(Join("\n", [TextPrefix + " " + x, TypePrefix + " " + t])) == Err(KeyError("type"))
  {
    var lines := [TextPrefix + " " + x, TypePrefix + " " + t];
    FieldLineNoNewline(TextPrefix, x);
    FieldLineNoNewline(TypePrefix, t);
    ParseJoined(lines);
    TextThenTypeRuns(x, t);
  }

  lemma FieldLineNoNewline(p: string, v: string)
    requires p == TypePrefix || p == TextPrefix || p == EvidencePrefix
    requires '\n' !in v
    ensures '\n' !in p + " " + v
  {
    PrefixesNoNewline();
  }

  lemma TextThenTypeRuns(x: string, t: string)
    requires Renderable(x) && Renderable(t)
    ensures Run(Start, [TextPrefix + " " + x, TypePrefix + " " + t]) == Err(KeyError("type"))
  {
    var st := ParserState([], map["text" := x]);
    TextLineStep(Start, x);
    RunPair(Start, TextPrefix + " " + x, TypePrefix + " " + t, st);
    TypeAfterTextRaises(st, x, t);
  }

  /** A first line that steps to `next` leaves the second line to `next`. */
  lemma RunPair(st: ParserState, a: string, b: string, next: ParserState)
    requires StepLine(st, a) == Ok(next)
    ensures Run(st, [a, b]) == Run(next, [b])
  {
    RunThrough(st, [a, b], next);
    assert [a, b][1..] == [b];
  }

  lemma TypeAfterTextRaises(st: ParserState, x: string, t: string)
    requires st == ParserState([], map["text" := x]) && Renderable(t)
    ensures Run(st, [TypePrefix + " " + t]) == Err(KeyError("type"))
  {
    KeysDistinct();
    assert "text" in st.current && "type" !in st.current;
    assert NewClaim(st, Lower(t)) == Err(KeyError("type"));
    TypeLineStep(st, t);
    RunStep(st, [TypePrefix + " " + t]);
  }

  lemma UpdateTwice(m: map<string, string>, k: string, v1: string, v2: string)
    ensures m[k := v1][k := v2] == m[k := v2]
  {
  }

  /** Within one claim a later `CLAIM TEXT:` line overwrites an earlier one. */
  lemma LaterTextLineWins(st: ParserState, x1: string, x2: string)
    requires Renderable(x1) && Renderable(x2)
    ensures StepLine(st, TextPrefix + " " + x1).Ok?
    ensures StepLine(StepLine(st, TextPrefix + " " + x1).value, TextPrefix + " " + x2) == StepLine(st, TextPrefix + " " + x2)
  {
    var s1 := st.(current := st.current["text" := x1]);
    TextLineStep(st, x1);
    TextLineStep(s1, x2);
    TextLineStep(st, x2);
    UpdateTwice(st.current, "text", x1, x2);
  }

  /** Within one claim a later `EVIDENCE:` line overwrites an earlier one. */
  lemma LaterEvidenceLineWins(st: ParserState, e1: string, e2: string)
    requires Renderable(e1) && Renderable(e2)
    ensures StepLine(st, EvidencePrefix + " " + e1).Ok?
    ensures StepLine(StepLine(st, EvidencePrefix + " " + e1).value, EvidencePrefix + " " + e2) == StepLine(st, EvidencePrefix + " " + e2)
  {
    var s1 := st.(current := st.current["evidence" := e1]);
    EvidenceLineStep(st, e1);
    EvidenceLineStep(s1, e2);
    EvidenceLineStep(st, e2);
    UpdateTwice(st.current, "evidence", e1, e2);
  }

  /** The three lines of one rendered claim: flush the pending claim, then gather the new one. */
  lemma RenderedBlock(acc: seq<ClaimTuple>, prev: seq<ClaimTuple>, cs: seq<ClaimTuple>)
    requires |prev| <= 1 && cs != [] && RenderableClaim(cs[0])
    ensures Run(ParserState(acc, PendingOf(prev)), RenderLines(cs)) ==
            Run(ParserState(acc + prev, PendingOf([cs[0]])), RenderLines(cs[1..]))
  {
    var c := cs[0];
    var lines := RenderLines(cs);
    assert lines[0] == TypePrefix + " " + c.0 && lines[1] == TextPrefix + " " + c.1 && lines[2] == EvidencePrefix + " " + c.2;
    FlushPending(acc, prev);
    var st0 := ParserState(acc, PendingOf(prev));
    TypeLineStep(st0, c.0);
    LowerOfLowerCase(c.0);
    var st1 := ParserState(acc + prev, map["type" := c.0]);
    TextLineStep(st1, c.1);
    var st2 := st1.(current := st1.current["text" := c.1]);
    EvidenceLineStep(st2, c.2);
    var st3 := st2.(current := st2.current["evidence" := c.2]);
    assert st3 == ParserState(acc + prev, PendingOf([c]));
    assert lines[1..][1..][1..] == RenderLines(cs[1..]);
    assert Run(st0, lines) == Run(st1, lines[1..]);
    assert Run(st1, lines[1..]) == Run(st2, lines[1..][1..]);
    assert Run(st2, lines[1..][1..]) == Run(st3, lines[1..][1..][1..]);
  }

  /**
   * Running the parser over rendered claims, starting with no pending claim
   * or with one complete pending claim `prev`, emits `prev` and then every
   * rendered claim.
   */
  lemma {:induction false} RunRendered(acc: seq<ClaimTuple>, prev: seq<ClaimTuple>, cs: seq<ClaimTuple>)
    requires |prev| <= 1
    requires forall i :: 0 <= i < |cs| ==> RenderableClaim(cs[i])
    ensures Run(ParserState(acc, PendingOf(prev)), RenderLines(cs)) == Ok(acc + prev + cs)
    decreases |cs|
  {
    if cs == [] {
      FlushPending(acc, prev);
      assert acc + prev + cs == acc + prev;
    } else {
      RunRendered(acc + prev, [cs[0]], cs[1..]);
      RunRenderedCons(acc, prev, cs);
    }
  }

  lemma RunRenderedCons(acc: seq<ClaimTuple>, prev: seq<ClaimTuple>, cs: seq<ClaimTuple>)
    requires |prev| <= 1 && cs != [] && RenderableClaim(cs[0])
    requires Run(ParserState(acc + prev, PendingOf([cs[0]])), RenderLines(cs[1..])) == Ok(acc + prev + [cs[0]] + cs[1..])
    ensures Run(ParserState(acc, PendingOf(prev)), RenderLines(cs)) == Ok(acc + prev + cs)
  {
    RenderedBlock(acc, prev, cs);
    ConsAppend(acc + prev, cs);
  }

  lemma ConsAppend<T>(p: seq<T>, cs: seq<T>)
    requires cs != []
    ensures p + [cs[0]] + cs[1..] == p + cs
  {
    assert [cs[0]] + cs[1..] == cs;
    AppendAssoc(p, [cs[0]], cs[1..]);
  }

  /** The dictionary holding the one claim of `prev`, or the empty one. */
  function PendingOf(prev: seq<ClaimTuple>): map<string, string>
    requires |prev| <= 1
  {
    if prev == [] then map[]
    else map["type" := prev[0].0, "text" := prev[0].1, "evidence" := prev[0].2]
  }

  /** The rendered reply splits back into its lines. */
  lemma RenderSplit(cs: seq<ClaimTuple>)
    requires cs != []
    requires forall k :: 0 <= k < |RenderLines(cs)| ==> '\n' !in RenderLines(cs)[k]
    ensures Split(Render(cs), '\n') == RenderLines(cs)
  {
    SplitJoinLines(RenderLines(cs));
  }

  lemma RunRenderedFromStart(cs: seq<ClaimTuple>)
    requires forall i :: 0 <= i < |cs| ==> RenderableClaim(cs[i])
    ensures Run(Start, RenderLines(cs)) == Ok(cs)
  {
    RunRendered([], [], cs);
    assert ParserState([], PendingOf([])) == Start;
    assert [] + [] + cs == cs;
  }

  /**
   * A reply written in the format the prompt requests, with non-empty,
   * stripped values free of colons and newlines and a lower-case type,
   * parses back to exactly the claims it was written from.
   */
  lemma {:induction false} ParseRender(cs: seq<ClaimTuple>)
    requires forall i :: 0 <= i < |cs| ==> RenderableClaim(cs[i])
    ensures ParseResponse(Render(cs)) == Ok(cs)
  {
    if cs == [] {
      ParseEmpty();
    } else {
      RenderLinesNoNewline(cs);
      RenderSplit(cs);
      RunRenderedFromStart(cs);
    }
  }

  // ---------------------------------------------------------------------
  // Keyword classifier (lines 30-56)

  const MeritKeywords: seq<string> :=
    ["merit", "valuable", "significant", "achievement", "impact", "advance", "improve"]
  const ImportanceKeywords: seq<string> :=
    ["national", "importance", "benefit", "united states", "country", "public", "society"]

  /** The label of a sentence: "merit" wins over "importance"; None skips the sentence. */
  function ClassifySentence(sentence: string): Option<string> {
    var lower := Lower(sentence);
    if AnyIn(MeritKeywords, lower) then Some("merit")
    else if AnyIn(ImportanceKeywords, lower) then Some("importance")
    else None
  }

  /**
   * The tuples the sentence loop appends, as (claim, type, evidence).
   * `evidence` is the text of the sentence spaCy's generator hands back.
   */
  function KeywordClaims(sentences: seq<string>, evidence: string): seq<ClaimTuple> {
    if sentences == [] then []
    else
      KeywordClaims(sentences[..|sentences| - 1], evidence) + SentenceClaims(sentences[|sentences| - 1], evidence)
  }

  /** What one sentence adds: nothing, or its stripped text with its class and the stripped evidence. */
  function SentenceClaims(sentence: string, evidence: string): seq<ClaimTuple> {
    match ClassifySentence(sentence)
    case None => []
    case Some(kind) => [(Strip(sentence), kind, Strip(evidence))]
  }

  /**
   * What `next(doc.sents, None)` gives: `doc.sents` builds a new generator
   * on every access, so it is always the document's first sentence (the
   * empty string when there is none).
   */
  function FirstSentence(sentences: seq<string>): string {
    if sentences == [] then "" else sentences[0]
  }

  /** The sentence loop of `extract_claims_spacy` over sentences already split. */
  method ExtractClaimsByKeywords(sentences: seq<string>) returns (claims: seq<ClaimTuple>)
    ensures claims == KeywordClaims(sentences, FirstSentence(sentences))
  {
    claims := [];
    for i := 0 to |sentences|
      invariant claims == KeywordClaims(sentences[..i], FirstSentence(sentences))
    {
      assert sentences[..i + 1][..i] == sentences[..i];
      var lower := Lower(sentences[i]);
      var isMerit := AnyIn(MeritKeywords, lower);
      var isImportance := AnyIn(ImportanceKeywords, lower);
      if isMerit || isImportance {
        var claimType := if isMerit then "merit" else "importance";
        var evidence := FirstSentence(sentences);
        claims := claims + [(Strip(sentences[i]), claimType, Strip(evidence))];
      }
    }
    assert sentences[..|sentences|] == sentences;
  }

  /** Every keyword claim carries the first sentence of the document, stripped, as its evidence. */
  lemma KeywordEvidenceIsFirstSentence(sentences: seq<string>)
    ensures forall k :: 0 <= k < |KeywordClaims(sentences, FirstSentence(sentences))| ==>
              sentences != [] && KeywordClaims(sentences, FirstSentence(sentences))[k].2 == Strip(sentences[0])
  {
    KeywordClaimsSpec(sentences, FirstSentence(sentences));
  }

  /** The number of sentences some keyword matches. */
  function MatchedCount(sentences: seq<string>): nat {
    if sentences == [] then 0
    else MatchedCount(sentences[..|sentences| - 1]) + (if ClassifySentence(sentences[|sentences| - 1]).Some? then 1 else 0)
  }

  /** What one sentence adds to the matched sentences: itself, or nothing. */
  function MatchedOne(sentence: string): seq<string> {
    if ClassifySentence(sentence).Some? then [sentence] else []
  }

  /** The sentences some keyword matches, in input order. */
  function Matched(sentences: seq<string>): (r: seq<string>)
    ensures |r| == MatchedCount(sentences) <= |sentences|
  {
    if sentences == [] then []
    else Matched(sentences[..|sentences| - 1]) + MatchedOne(sentences[|sentences| - 1])
  }

  /** Every matched sentence is an input sentence that some keyword matches. */
  lemma {:induction false} MatchedMembers(sentences: seq<string>)
    ensures forall k :: 0 <= k < |Matched(sentences)| ==>
              Matched(sentences)[k] in sentences && ClassifySentence(Matched(sentences)[k]).Some?
    decreases |sentences|
  {
    if sentences != [] {
      var init := sentences[..|sentences| - 1];
      var last := sentences[|sentences| - 1];
      MatchedMembers(init);
      var m0 := Matched(init);
      var mt := MatchedOne(last);
      assert Matched(sentences) == m0 + mt;
      forall k | 0 <= k < |m0 + mt|
        ensures (m0 + mt)[k] in sentences && ClassifySentence((m0 + mt)[k]).Some?
      {
        if k < |m0| {
          assert (m0 + mt)[k] == m0[k] && m0[k] in init;
        } else {
          assert mt == [last] && (m0 + mt)[k] == last;
        }
      }
    }
  }

  /** The tuple a matched sentence contributes. */
  predicate FromSentence(c: ClaimTuple, sentence: string, evidence: string) {
    c.0 == Strip(sentence) && ClassifySentence(sentence) == Some(c.1) && c.2 == Strip(evidence)
  }

  /**
   * One tuple per matched sentence, in order: the k-th is the k-th matched
   * sentence stripped, labelled as the keyword rule classifies it, with the
   * stripped evidence sentence.
   */
  lemma {:induction false} KeywordClaimsSpec(sentences: seq<string>, evidence: string)
    ensures |KeywordClaims(sentences, evidence)| == MatchedCount(sentences) <= |sentences|
    ensures forall k :: 0 <= k < |KeywordClaims(sentences, evidence)| ==>
              exists i :: 0 <= i < |sentences| && FromSentence(KeywordClaims(sentences, evidence)[k], sentences[i], evidence)
    ensures |KeywordClaims(sentences, evidence)| == |Matched(sentences)|
    ensures forall k :: 0 <= k < |KeywordClaims(sentences, evidence)| ==>
              FromSentence(KeywordClaims(sentences, evidence)[k], Matched(sentences)[k], evidence)
  {
    KeywordClaimsInOrder(sentences, evidence);
    KeywordClaimsFrom(sentences, evidence);
  }

  /** The k-th tuple comes from the k-th matched sentence. */
  lemma {:induction false} KeywordClaimsInOrder(sentences: seq<string>, evidence: string)
    ensures |KeywordClaims(sentences, evidence)| == |Matched(sentences)|
    ensures forall k :: 0 <= k < |KeywordClaims(sentences, evidence)| ==>
              FromSentence(KeywordClaims(sentences, evidence)[k], Matched(sentences)[k], evidence)
    decreases |sentences|
  {
    if sentences != [] {
      var init := sentences[..|sentences| - 1];
      var last := sentences[|sentences| - 1];
      KeywordClaimsInOrder(init, evidence);
      SentenceClaimsShape(last, evidence);
      PairedAppend(KeywordClaims(init, evidence), SentenceClaims(last, evidence), Matched(init), MatchedOne(last), evidence);
    }
  }

  /** Two runs of tuples paired with their sentences, concatenated, stay paired. */
  lemma PairedAppend(r0: seq<ClaimTuple>, tail: seq<ClaimTuple>, m0: seq<string>, mt: seq<string>, evidence: string)
    requires |r0| == |m0| && |tail| == |mt|
    requires forall k :: 0 <= k < |r0| ==> FromSentence(r0[k], m0[k], evidence)
    requires forall k :: 0 <= k < |tail| ==> FromSentence(tail[k], mt[k], evidence)
    ensures |r0 + tail| == |m0 + mt|
    ensures forall k :: 0 <= k < |r0 + tail| ==> FromSentence((r0 + tail)[k], (m0 + mt)[k], evidence)
  {
    forall k | 0 <= k < |r0 + tail|
      ensures FromSentence((r0 + tail)[k], (m0 + mt)[k], evidence)
    {
      if k < |r0| {
        assert (r0 + tail)[k] == r0[k] && (m0 + mt)[k] == m0[k];
      } else {
        assert (r0 + tail)[k] == tail[k - |r0|] && (m0 + mt)[k] == mt[k - |r0|];
      }
    }
  }

  /** Each tuple is the stripped text of some input sentence. */
  lemma KeywordClaimsFrom(sentences: seq<string>, evidence: string)
    ensures forall k :: 0 <= k < |KeywordClaims(sentences, evidence)| ==>
              exists i :: 0 <= i < |sentences| && FromSentence(KeywordClaims(sentences, evidence)[k], sentences[i], evidence)
  {
    KeywordClaimsInOrder(sentences, evidence);
    MatchedMembers(sentences);
    var r := KeywordClaims(sentences, evidence);
    var m := Matched(sentences);
    forall k | 0 <= k < |r|
      ensures exists i :: 0 <= i < |sentences| && FromSentence(r[k], sentences[i], evidence)
    {
      assert m[k] in sentences;
      var i :| 0 <= i < |sentences| && sentences[i] == m[k];
      assert FromSentence(r[k], sentences[i], evidence);
    }
  }

  /** What one sentence adds is paired with what it adds to the matched sentences. */
  lemma SentenceClaimsShape(sentence: string, evidence: string)
    ensures |SentenceClaims(sentence, evidence)| == if ClassifySentence(sentence).Some? then 1 else 0
    ensures forall k :: 0 <= k < |SentenceClaims(sentence, evidence)| ==> FromSentence(SentenceClaims(sentence, evidence)[k], sentence, evidence)
    ensures |SentenceClaims(sentence, evidence)| == |MatchedOne(sentence)|
    ensures forall k :: 0 <= k < |SentenceClaims(sentence, evidence)| ==>
              FromSentence(SentenceClaims(sentence, evidence)[k], MatchedOne(sentence)[k], evidence)
  {
  }

  /** The sentences are handled one after another: the tuples of a concatenation are concatenated. */
  lemma {:induction false} KeywordClaimsAppend(a: seq<string>, b: seq<string>, evidence: string)
    ensures KeywordClaims(a + b, evidence) == KeywordClaims(a, evidence) + KeywordClaims(b, evidence)
    decreases |b|
  {
    if b == [] {
      assert a + b == a;
    } else {
      var b0 := b[..|b| - 1];
      var x := b[|b| - 1];
      SnocSplit(a, b);
      KeywordClaimsSnoc(a + b0, x, evidence);
      KeywordClaimsAppend(a, b0, evidence);
      KeywordClaimsSnoc(b0, x, evidence);
      AppendAssoc(KeywordClaims(a, evidence), KeywordClaims(b0, evidence), SentenceClaims(x, evidence));
    }
  }

  lemma KeywordClaimsSnoc(xs: seq<string>, x: string, evidence: string)
    ensures KeywordClaims(xs + [x], evidence) == KeywordClaims(xs, evidence) + SentenceClaims(x, evidence)
  {
    assert (xs + [x])[..|xs|] == xs;
  }

  /** Merit wins: a sentence with both kinds of keyword is a merit claim. */
  lemma MeritWins(sentence: string)
    ensures ClassifySentence(sentence) == Some("merit") <==> AnyIn(MeritKeywords, Lower(sentence))
    ensures ClassifySentence(sentence) == Some("importance") <==>
            !AnyIn(MeritKeywords, Lower(sentence)) && AnyIn(ImportanceKeywords, Lower(sentence))
    ensures ClassifySentence(sentence).None? <==>
            !AnyIn(MeritKeywords, Lower(sentence)) && !AnyIn(ImportanceKeywords, Lower(sentence))
  {
  }

  /** Keywords match inside words and regardless of case: "Improves" is a merit sentence. */
  lemma KeywordsMatchSubstrings()
    ensures ClassifySentence("Improves") == Some("merit")
  {
    var s := "Improves";
    assert Lower(s) == "improves";
    assert ContainsAt(Lower(s), "improve", 0);
    ContainsIff(Lower(s), "improve");
    assert MeritKeywords[6] == "improve";
  }
}
