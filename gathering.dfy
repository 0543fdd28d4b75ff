/**
 * Evidence gathering: the academic-reference test, the provider search
 * helpers that tag each hit with the provider's name, and the construction
 * of one evidence record per claim. The search services, the scholarly
 * lookup and the expert model are outside the model; what they return for a
 * query is an input. Lines cited are in
 * src/pipeline_steps/step3_evidence_gather.py.
 */
module Gathering {
  import opened Wrappers
  import opened Text
  import opened EvidenceModel
  import opened EvidenceValidator
  import ClaimExtraction

  // ---------------------------------------------------------------------
  // Academic-reference test (lines 131-137)

  const AcademicIndicators: seq<string> :=
    ["paper", "research", "study", "journal", "publication", "published", "doi", "arxiv", "conference"]

  /** `contains_academic_reference`: some indicator occurs in the lower-cased text. */
  predicate ContainsAcademicReference(text: string) {
    AnyIn(AcademicIndicators, Lower(text))
  }

  /** A string occurring in another is no longer than it. */
  lemma ContainsLength(s: string, t: string)
    requires Contains(s, t)
    ensures |t| <= |s|
  {
    ContainsIff(s, t);
  }

  /** Every character of an occurring string is a character of the text. */
  lemma ContainsChars(s: string, t: string, c: char)
    requires Contains(s, t) && c in t
    ensures c in s
  {
    ContainsIff(s, t);
    var i :| 0 <= i <= |s| - |t| && ContainsAt(s, t, i);
    var j :| 0 <= j < |t| && t[j] == c;
    assert s[i + j] == t[j];
  }

  /** The test ignores case: the lower-cased text answers the same. */
  lemma ReferenceIgnoresCase(text: string)
    ensures ContainsAcademicReference(Lower(text)) == ContainsAcademicReference(text)
  {
    LowerIsLowerCase(text);
  }

  /** A text that holds a text with an academic reference has one too. */
  lemma ReferenceInLargerText(s: string, t: string)
    requires Contains(s, t) && ContainsAcademicReference(t)
    ensures ContainsAcademicReference(s)
  {
    var k :| 0 <= k < |AcademicIndicators| && Contains(Lower(t), AcademicIndicators[k]);
    ContainsLower(s, t);
    ContainsTransitive(Lower(s), Lower(t), AcademicIndicators[k]);
  }

  /** The shortest indicator, "doi", has three letters: a shorter text never qualifies. */
  lemma ShortTextHasNoReference(text: string)
    requires |text| < 3
    ensures !ContainsAcademicReference(text)
  {
    if ContainsAcademicReference(text) {
      var k :| 0 <= k < |AcademicIndicators| && Contains(Lower(text), AcademicIndicators[k]);
      ContainsLength(Lower(text), AcademicIndicators[k]);
    }
  }

  /**
   * Indicators match inside words: any text with "paper" somewhere in it,
   * such as "News" + "paper", counts as a reference.
   */
  lemma IndicatorsMatchInsideWords(before: string, after: string)
    ensures ContainsAcademicReference(before + "paper" + after)
  {
    var w := "paper";
    assert StartsWith(w, w);
    ContainsInLarger(before, w, after, w);
    ContainsLower(before + w + after, w);
    LowerOfLowerCase(w);
    assert AcademicIndicators[0] == w;
  }

  // ---------------------------------------------------------------------
  // Search helpers (lines 69-129)

  /**
   * One hit of a search service: `item.get(key)` for each key it reads,
   * None when the key is missing.
   */
  datatype Hit = Hit(title: Option<string>, snippet: Option<string>, url: Option<string>)

  /**
   * What the services give back for one query. A service answer is None
   * when the request raised (the helper then returns []) or when the answer
   * has no list of hits; `scholar` is the dictionary the academic lookup
   * returns ({} when it finds nothing or fails); `expert` is the expert
   * model's text, None when that call raised.
   */
  datatype Fetched = Fetched(
    perplexity: Option<seq<Hit>>,
    youDotCom: Option<seq<Hit>>,
    serp: Option<seq<Hit>>,
    scholar: AcademicEvidence,
    expert: Option<string>)

  /** The hits of an answer, or none. */
  function HitsOf(answer: Option<seq<Hit>>): seq<Hit> {
    match answer
    case None => []
    case Some(hits) => hits
  }

  /** The web items a helper builds from an answer: one per hit, in order, tagged with the provider. */
  function Tagged(tag: string, answer: Option<seq<Hit>>): (items: seq<WebItem>)
    ensures |items| == |HitsOf(answer)|
    ensures forall i :: 0 <= i < |items| ==> items[i].source == tag
  {
    var hits := HitsOf(answer);
    seq(|hits|, i requires 0 <= i < |hits| => WebItem(tag, hits[i].title, hits[i].snippet, hits[i].url))
  }

  /**
   * The result loop shared by `search_you_dot_com` (lines 99-105),
   * `search_serp` (lines 119-125, whose `url` is the hit's `link`) and the
   * disabled `search_perplexity` (lines 76-82).
   */
  method TagHits(tag: string, answer: Option<seq<Hit>>) returns (results: seq<WebItem>)
    ensures |results| == |HitsOf(answer)|
    ensures forall i :: 0 <= i < |results| ==>
              results[i] == WebItem(tag, HitsOf(answer)[i].title, HitsOf(answer)[i].snippet, HitsOf(answer)[i].url)
  {
    if answer.None? {
      return [];
    }
    var hits := answer.value;
    results := [];
    for i := 0 to |hits|
      invariant |results| == i
      invariant forall j :: 0 <= j < i ==> results[j] == WebItem(tag, hits[j].title, hits[j].snippet, hits[j].url)
    {
      results := results + [WebItem(tag, hits[i].title, hits[i].snippet, hits[i].url)];
    }
  }

  method SearchYouDotCom(answer: Option<seq<Hit>>) returns (results: seq<WebItem>)
    ensures results == Tagged("you.com", answer)
  {
    results := TagHits("you.com", answer);
  }

  method SearchSerp(answer: Option<seq<Hit>>) returns (results: seq<WebItem>)
    ensures results == Tagged("serp", answer)
  {
    results := TagHits("serp", answer);
  }

  method SearchPerplexity(answer: Option<seq<Hit>>) returns (results: seq<WebItem>)
    ensures results == Tagged("perplexity", answer)
  {
    results := TagHits("perplexity", answer);
  }

  // ---------------------------------------------------------------------
  // Provider tags against the validator's source patterns

  const ProviderTags: seq<string> := ["you.com", "serp", "perplexity"]

  lemma ProviderTagsHaveNoSlash()
    ensures forall k :: 0 <= k < |ProviderTags| ==> '/' !in ProviderTags[k] && '\n' !in ProviderTags[k]
  {
  }

  /** No provider tag ends with a pattern's domain. */
  lemma ProviderTagsEndElsewhere()
    ensures forall k, p :: 0 <= k < |ProviderTags| && 0 <= p < |SourcePatterns| ==>
              !EndsWith(ProviderTags[k], SourcePatterns[p].domain)
  {
    assert ProviderTags[0][3..] == ".com";
  }

  /** A text ending with `t` ends with `t`'s last character. */
  lemma EndsWithLast(s: string, t: string)
    requires EndsWith(s, t) && t != []
    ensures s[|s| - 1] == t[|t| - 1]
  {
    assert s[|s| - |t|..][|t| - 1] == s[|s| - 1];
  }

  lemma ProviderTagsAreLowerCase()
    ensures forall k :: 0 <= k < |ProviderTags| ==> Lower(ProviderTags[k]) == ProviderTags[k]
  {
    forall k | 0 <= k < |ProviderTags| ensures Lower(ProviderTags[k]) == ProviderTags[k] {
      assert IsLowerCase(ProviderTags[k]);
      LowerOfLowerCase(ProviderTags[k]);
    }
  }

  /** A provider tag never matches a source pattern. */
  lemma ProviderTagMatchesNoDomain(tag: string, d: string)
    requires '/' !in tag && '\n' !in tag && !EndsWith(tag, d)
    ensures !MatchesDomain(tag, d)
  {
    if Contains(tag, d + "/") {
      ContainsChars(tag, d + "/", '/');
    }
    if EndsWith(tag, d + "\n") {
      EndsWithLast(tag, d + "\n");
    }
  }

  /** No pattern adds weight or a tag to a provider's item. */
  lemma {:induction false} ProviderPatterns(tag: string, k: nat)
    requires tag in ProviderTags && k <= |SourcePatterns|
    ensures PatternScore(Lower(tag), k) == 0 && PatternTags(Lower(tag), k) == []
  {
    if k > 0 {
      ProviderPatterns(tag, k - 1);
      ProviderTagsHaveNoSlash();
      ProviderTagsEndElsewhere();
      ProviderTagsAreLowerCase();
      ProviderTagMatchesNoDomain(tag, SourcePatterns[k - 1].domain);
    }
  }

  /**
   * A gathered web item earns weight from its snippet alone: its provider
   * tag never looks like a `.gov`, `.edu` or `.org` source.
   */
  lemma ProviderItemScore(item: WebItem)
    requires item.source in ProviderTags && item.snippet.Some?
    ensures ItemScore(item) ==
            (if AnyIn(ResearchIndicators, SnippetText(item)) then ResearchIndicatorsWeight else 0) +
            (if AnyIn(RecognitionIndicators, SnippetText(item)) then RecognitionIndicatorsWeight else 0)
    ensures forall c :: c in ItemTags(item) ==> c == ResearchBased || c == Recognition
  {
    ProviderPatterns(item.source, |SourcePatterns|);
    SnippetTagsOnly(item);
  }

  /** With no source category, an item's tags come from its snippet. */
  lemma SnippetTagsOnly(item: WebItem)
    requires item.snippet.Some? && PatternTags(SourceText(item), |SourcePatterns|) == []
    ensures forall c :: c in ItemTags(item) ==> c == ResearchBased || c == Recognition
  {
  }

  /** Over gathered web evidence, scoring never attaches a source category. */
  lemma {:induction false} ProviderWebTags(items: seq<WebItem>)
    requires SnippetsPresent(items)
    requires forall i :: 0 <= i < |items| ==> items[i].source in ProviderTags
    ensures forall c :: c in WebTags(items) ==> c == ResearchBased || c == Recognition
  {
    if items != [] {
      var init := items[..|items| - 1];
      ProviderWebTags(init);
      ProviderItemScore(items[|items| - 1]);
    }
  }

  // ---------------------------------------------------------------------
  // One record per claim (lines 35-67, 199-214)

  /** The six gathered fields of an evidence record, as a value. */
  datatype Gathered = Gathered(
    claimText: string,
    claimType: string,
    initialEvidence: string,
    webEvidence: seq<WebItem>,
    academicEvidence: Option<AcademicEvidence>,
    expertValidation: Option<string>)

  function Fields(r: EvidenceRecord): Gathered {
    Gathered(r.claimText, r.claimType, r.initialEvidence, r.webEvidence, r.academicEvidence, r.expertValidation)
  }

  /** The web evidence, in the order the three helpers extend it. */
  function WebOf(f: Fetched): seq<WebItem> {
    Tagged("perplexity", f.perplexity) + Tagged("you.com", f.youDotCom) + Tagged("serp", f.serp)
  }

  /** The record `gather_evidence_for_claim` builds for `claim` from what the services return. */
  function Gather(claim: ClaimExtraction.ClaimTuple, f: Fetched): Gathered {
    Gathered(claim.0, claim.1, claim.2, WebOf(f),
             if ContainsAcademicReference(claim.0) then Some(f.scholar) else None,
             f.expert)
  }

  /**
   * `gather_evidence_for_claim`: unpacks the tuple as (text, type, evidence),
   * extends the web evidence with the three helpers' results, asks for the
   * academic lookup only when the text holds an academic reference, and
   * stores the expert model's answer. `f` is what the services return for
   * the query `claim.0`. The record is unscored.
   */
  method GatherEvidenceForClaim(claim: ClaimExtraction.ClaimTuple, f: Fetched) returns (r: EvidenceRecord)
    ensures fresh(r)
    ensures Fields(r) == Gather(claim, f)
    ensures r.strengthScore == 0 && r.categories == []
  {
    var (claimText, claimType, initialEvidence) := claim;
    var web: seq<WebItem> := [];
    var found := SearchPerplexity(f.perplexity);
    web := web + found;
    found := SearchYouDotCom(f.youDotCom);
    web := web + found;
    found := SearchSerp(f.serp);
    web := web + found;
    var academic: Option<AcademicEvidence> := None;
    if ContainsAcademicReference(claimText) {
      academic := Some(f.scholar);
    }
    r := new EvidenceRecord(claimText, claimType, initialEvidence, web, academic, f.expert);
  }

  /** The error Python raises for a name with no definition. */
  datatype NameError = NameError(name: string)

  /**
   * `gather_evidence_for_claim` as written: its first search call names
   * `search_perplexity`, whose definition is commented out, so every call
   * raises NameError before the record is returned.
   */
  function GatherAsWritten(claim: ClaimExtraction.ClaimTuple, f: Fetched): (r: Result<Gathered, NameError>)
    ensures r.Err? && r.error == NameError("search_perplexity")
    ensures r != Ok(Gather(claim, f))
  {
    Err(NameError("search_perplexity"))
  }

  /**
   * The record keeps the tuple's three positions as text, type and initial
   * evidence; the academic part is present exactly when the text holds an
   * academic reference, and is then the lookup's answer.
   */
  lemma GatherKeepsClaim(claim: ClaimExtraction.ClaimTuple, f: Fetched)
    ensures Gather(claim, f).claimText == claim.0 && Gather(claim, f).claimType == claim.1
    ensures Gather(claim, f).initialEvidence == claim.2
    ensures Gather(claim, f).academicEvidence.Some? <==> ContainsAcademicReference(claim.0)
    ensures Gather(claim, f).academicEvidence.Some? ==> Gather(claim, f).academicEvidence.value == f.scholar
  {
  }

  /**
   * The web evidence holds every hit of every provider, perplexity's first,
   * then you.com's, then serp's, each tagged with its provider.
   */
  lemma GatheredWeb(f: Fetched)
    ensures |WebOf(f)| == |HitsOf(f.perplexity)| + |HitsOf(f.youDotCom)| + |HitsOf(f.serp)|
    ensures forall i :: 0 <= i < |WebOf(f)| ==> WebOf(f)[i].source in ProviderTags
    ensures forall i :: 0 <= i < |HitsOf(f.youDotCom)| ==>
              WebOf(f)[|HitsOf(f.perplexity)| + i].url == HitsOf(f.youDotCom)[i].url
  {
    var p := Tagged("perplexity", f.perplexity);
    var y := Tagged("you.com", f.youDotCom);
    var s := Tagged("serp", f.serp);
    forall i | 0 <= i < |WebOf(f)| ensures WebOf(f)[i].source in ProviderTags {
      if i < |p| {
        assert WebOf(f)[i] == p[i];
      } else if i < |p| + |y| {
        assert WebOf(f)[i] == y[i - |p|];
      } else {
        assert WebOf(f)[i] == s[i - |p| - |y|];
      }
    }
  }

  /**
   * Scoring a gathered record: its web part never attaches `government`,
   * `academic` or `organization`, whatever the hits' urls say.
   */
  lemma GatheredWebScoresNoSource(claim: ClaimExtraction.ClaimTuple, f: Fetched)
    requires SnippetsPresent(WebOf(f))
    ensures Government !in WebTags(Gather(claim, f).webEvidence)
    ensures Organization !in WebTags(Gather(claim, f).webEvidence)
    ensures Academic !in WebTags(Gather(claim, f).webEvidence)
  {
    GatheredWeb(f);
    ProviderWebTags(WebOf(f));
  }

  /** One gathered record per claim, in claim order. */
  function GatherAll(claims: seq<ClaimExtraction.ClaimTuple>, services: string -> Fetched): (gs: seq<Gathered>)
    ensures |gs| == |claims|
  {
    seq(|claims|, i requires 0 <= i < |claims| => Gather(claims[i], services(claims[i].0)))
  }

  function AllFields(records: seq<EvidenceRecord>): seq<Gathered> {
    seq(|records|, i requires 0 <= i < |records| => Fields(records[i]))
  }

  /**
   * `gather_evidence_all_claims`: one new record per claim, in the same
   * order. `services` gives what the services return for a query text.
   */
  method GatherEvidenceAllClaims(claims: seq<ClaimExtraction.ClaimTuple>, services: string -> Fetched)
    returns (collection: seq<EvidenceRecord>)
    ensures |collection| == |claims|
    ensures AllFields(collection) == GatherAll(claims, services)
    ensures forall i :: 0 <= i < |collection| ==> fresh(collection[i])
    ensures forall i :: 0 <= i < |collection| ==>
              collection[i].strengthScore == 0 && collection[i].categories == []
  {
    collection := [];
    for i := 0 to |claims|
      invariant |collection| == i
      invariant forall j :: 0 <= j < i ==> Fields(collection[j]) == Gather(claims[j], services(claims[j].0))
      invariant forall j :: 0 <= j < i ==> fresh(collection[j])
      invariant forall j :: 0 <= j < i ==> collection[j].strengthScore == 0 && collection[j].categories == []
    {
      var evidence := GatherEvidenceForClaim(claims[i], services(claims[i].0));
      collection := collection + [evidence];
    }
  }

  // ---------------------------------------------------------------------
  // The tuple order between the reply parser and this step

  /** The claim types the reply prompts ask for. */
  const PromptTypes: seq<string> := ["merit", "importance", "background"]

  /** A character of `t` missing from `s` keeps `t` out of `s`. */
  lemma MissingChar(s: string, t: string, c: char)
    requires c in t && c !in s
    ensures !Contains(s, t)
  {
    if Contains(s, t) {
      ContainsChars(s, t, c);
    }
  }

  lemma PaperNotInImportance()
    ensures !Contains("importance", "paper")
  {
    var s := "importance";
    forall i | 0 <= i <= |s| - 5 ensures !ContainsAt(s, "paper", i) {
      if i == 2 {
        assert s[i..i + 5][1] == 'o';
      } else {
        assert s[i..i + 5][0] == s[i] != 'p';
      }
    }
    ContainsIff(s, "paper");
  }

  /** No indicator occurs in `t` when each has a character `w[k]` that `t` lacks. */
  lemma NoIndicator(t: string, w: seq<char>)
    requires |w| == |AcademicIndicators|
    requires forall k :: 0 <= k < |w| ==> w[k] in AcademicIndicators[k] && w[k] !in t
    ensures !AnyIn(AcademicIndicators, t)
  {
    forall k | 0 <= k < |AcademicIndicators| ensures !Contains(t, AcademicIndicators[k]) {
      MissingChar(t, AcademicIndicators[k], w[k]);
    }
  }

  lemma MeritNotAcademic()
    ensures !AnyIn(AcademicIndicators, "merit")
  {
    NoIndicator("merit", "pssjppdac");
  }

  /** "importance" holds every letter of "paper", but not the word. */
  lemma ImportanceNotAcademic()
    ensures !AnyIn(AcademicIndicators, "importance")
  {
    var t, ind, w := "importance", AcademicIndicators, "pssjuudxf";
    forall k | 0 <= k < |ind| ensures !Contains(t, ind[k]) {
      if k == 0 {
        PaperNotInImportance();
      } else {
        MissingChar(t, ind[k], w[k]);
      }
    }
  }

  lemma BackgroundNotAcademic()
    ensures !AnyIn(AcademicIndicators, "background")
  {
    NoIndicator("background", "pesjppixe");
  }

  /** None of the prompt's claim types holds an academic indicator. */
  lemma PromptTypesAreNotAcademic(t: string)
    requires t in PromptTypes
    ensures !ContainsAcademicReference(t)
  {
    assert IsLowerCase(t);
    LowerOfLowerCase(t);
    if t == "merit" {
      MeritNotAcademic();
    } else if t == "importance" {
      ImportanceNotAcademic();
    } else {
      BackgroundNotAcademic();
    }
  }

  /**
   * As written, the parser's (type, text, evidence) tuples are unpacked here
   * as (text, type, evidence): for a reply in the requested format, every
   * record's claim text is the claim's type word and its claim type is the
   * claim's text. The academic lookup then follows the type word's
   * reference test, not the text's; for the requested type words (merit,
   * importance, background) it never happens, whatever the claim says.
   */
  lemma ParsedTuplesSwapTextAndType(cs: seq<ClaimExtraction.ClaimTuple>, services: string -> Fetched)
    requires forall i :: 0 <= i < |cs| ==> ClaimExtraction.RenderableClaim(cs[i])
    ensures ClaimExtraction.ParseResponse(ClaimExtraction.Render(cs)) == Ok(cs)
    ensures forall i :: 0 <= i < |cs| ==>
              GatherAll(cs, services)[i].claimText == cs[i].0 &&
              GatherAll(cs, services)[i].claimType == cs[i].1 &&
              (GatherAll(cs, services)[i].academicEvidence.Some? <==> ContainsAcademicReference(cs[i].0))
    ensures forall i :: 0 <= i < |cs| && cs[i].0 in PromptTypes ==> GatherAll(cs, services)[i].academicEvidence == None
  {
    ClaimExtraction.ParseRender(cs);
    forall i | 0 <= i < |cs|
      ensures GatherAll(cs, services)[i].claimText == cs[i].0
      ensures GatherAll(cs, services)[i].claimType == cs[i].1
      ensures GatherAll(cs, services)[i].academicEvidence.Some? <==> ContainsAcademicReference(cs[i].0)
      ensures cs[i].0 in PromptTypes ==> GatherAll(cs, services)[i].academicEvidence == None
    {
      GatherKeepsClaim(cs[i], services(cs[i].0));
      if cs[i].0 in PromptTypes {
        PromptTypesAreNotAcademic(cs[i].0);
      }
    }
  }

  /** A parsed tuple in the order this step reads: (text, type, evidence). */
  function DocstringOrder(c: ClaimExtraction.ClaimTuple): (d: ClaimExtraction.ClaimTuple)
    ensures d.0 == c.1 && d.1 == c.0 && d.2 == c.2
  {
    (c.1, c.0, c.2)
  }

  function Reordered(cs: seq<ClaimExtraction.ClaimTuple>): seq<ClaimExtraction.ClaimTuple> {
    seq(|cs|, i requires 0 <= i < |cs| => DocstringOrder(cs[i]))
  }

  /**
   * Gathering for the parser's tuples, put in the order this step reads
   * first: one record per parsed claim, in order.
   */
  method GatherEvidenceForParsedClaims(parsed: seq<ClaimExtraction.ClaimTuple>, services: string -> Fetched)
    returns (collection: seq<EvidenceRecord>)
    ensures |collection| == |parsed|
    ensures AllFields(collection) == GatherAll(Reordered(parsed), services)
    ensures forall i :: 0 <= i < |collection| ==> fresh(collection[i])
  {
    collection := GatherEvidenceAllClaims(Reordered(parsed), services);
  }

  /**
   * With the tuples reordered, each record holds the claim's text as its
   * text and its type as its type, the searches run on the text, and the
   * academic lookup happens exactly when the text holds an academic reference.
   */
  lemma ReorderedGathersText(cs: seq<ClaimExtraction.ClaimTuple>, services: string -> Fetched)
    ensures forall i :: 0 <= i < |cs| ==>
              GatherAll(Reordered(cs), services)[i].claimText == cs[i].1 &&
              GatherAll(Reordered(cs), services)[i].claimType == cs[i].0 &&
              GatherAll(Reordered(cs), services)[i].initialEvidence == cs[i].2 &&
              GatherAll(Reordered(cs), services)[i].webEvidence == WebOf(services(cs[i].1)) &&
              (GatherAll(Reordered(cs), services)[i].academicEvidence.Some? <==> ContainsAcademicReference(cs[i].1))
  {
  }
}
