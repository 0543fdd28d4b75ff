/**
 * The evidence validator: scores each evidence record from its academic,
 * web and expert-validation parts, keeps the records that reach the minimum
 * score, ranks them by score (stably, highest first) and buckets them by
 * category tag. Lines cited are in src/evidence_validator.py.
 */
module EvidenceValidator {
  import opened Wrappers
  import opened Text
  import opened Seqs
  import opened EvidenceModel
  import Ranking

  // Thresholds and weights (lines 10-35).
  const MinimumEvidenceScore := 3
  const CitationThreshold := 50
  const InfluentialCitationThreshold := 10
  const RecentYearThreshold := 2020

  const CitationsWeight := 2
  const InfluentialCitationsWeight := 2
  const RecentPublicationWeight := 1
  const GovernmentWeight := 3
  const AcademicSourceWeight := 2
  const OrganizationWeight := 1
  const ResearchIndicatorsWeight := 1
  const RecognitionIndicatorsWeight := 2
  const HighConfidenceWeight := 3
  const MediumConfidenceWeight := 2
  const LowConfidenceWeight := 1
  const StronglySupportsWeight := 2
  const SupportsWeight := 1

  /** One entry of SOURCE_PATTERNS (lines 38-42) with its weight. */
  datatype SourcePattern = SourcePattern(category: Category, domain: string, weight: int)

  /** SOURCE_PATTERNS in its iteration order. */
  const SourcePatterns: seq<SourcePattern> := [
    SourcePattern(Government, ".gov", GovernmentWeight),
    SourcePattern(Academic, ".edu", AcademicSourceWeight),
    SourcePattern(Organization, ".org", OrganizationWeight)]

  const ResearchIndicators: seq<string> := ["study shows", "research demonstrates", "according to"]
  const RecognitionIndicators: seq<string> := ["patent", "award", "recognition"]

  /**
   * `re.search(r'\.gov$|\.gov/', s)` and its `.edu` and `.org` siblings: the
   * domain at the very end, or just before a final newline (where Python's
   * `$` also matches), or followed by a slash anywhere.
   */
  predicate MatchesDomain(s: string, domain: string) {
    EndsWith(s, domain) || EndsWith(s, domain + "\n") || Contains(s, domain + "/")
  }

  /** Python truthiness of an optional string: present and non-empty. */
  predicate Truthy(v: Option<string>) {
    v.Some? && v.value != ""
  }

  // ---------------------------------------------------------------------
  // Academic scorer (lines 93-104)

  /** `score_academic_evidence`; a missing key counts as 0 (`.get(key, 0)`). */
  function ScoreAcademicEvidence(a: AcademicEvidence): (score: int)
    ensures 0 <= score <= 5
  {
    var s0 := 0;
    var s1 := if a.citationCount.GetOr(0) > CitationThreshold then s0 + CitationsWeight else s0;
    var s2 := if a.influentialCitationCount.GetOr(0) > InfluentialCitationThreshold
              then s1 + InfluentialCitationsWeight else s1;
    if a.year.GetOr(0) >= RecentYearThreshold then s2 + RecentPublicationWeight else s2
  }

  /**
   * The academic score is odd exactly when the year (missing counts as 0)
   * is recent, and halved it counts the citation thresholds passed.
   */
  lemma AcademicScoreDecomposes(a: AcademicEvidence)
    ensures ScoreAcademicEvidence(a) % 2 == 1 <==> a.year.GetOr(0) >= RecentYearThreshold
    ensures ScoreAcademicEvidence(a) / 2 ==
            (if a.citationCount.GetOr(0) > CitationThreshold then 1 else 0) +
            (if a.influentialCitationCount.GetOr(0) > InfluentialCitationThreshold then 1 else 0)
  {
  }

  /** Every score from 0 to 5 occurs, 1 and 3 included. */
  lemma AcademicScoreTakesEveryValue(v: int)
    requires 0 <= v <= 5
    ensures exists a :: ScoreAcademicEvidence(a) == v
  {
    var cites := if v >= 2 then Some(51) else None;
    var influential := if v >= 4 then Some(11) else None;
    var year := if v % 2 == 1 then Some(2020) else None;
    var a := AcademicEvidence(None, None, year, cites, influential, None);
    assert ScoreAcademicEvidence(a) == v;
  }

  /** A missing key scores as the value 0 would. */
  lemma AcademicMissingKeysCountAsZero(a: AcademicEvidence)
    ensures ScoreAcademicEvidence(a.(citationCount := None)) == ScoreAcademicEvidence(a.(citationCount := Some(0)))
    ensures ScoreAcademicEvidence(a.(influentialCitationCount := None)) ==
            ScoreAcademicEvidence(a.(influentialCitationCount := Some(0)))
    ensures ScoreAcademicEvidence(a.(year := None)) == ScoreAcademicEvidence(a.(year := Some(0)))
  {
  }

  /** The thresholds are strict for citations and inclusive for the year. */
  lemma AcademicThresholdBoundaries()
    ensures ScoreAcademicEvidence(AcademicEvidence(None, None, Some(2019), Some(50), Some(10), None)) == 0
    ensures ScoreAcademicEvidence(AcademicEvidence(None, None, Some(2020), Some(51), Some(11), None)) == 5
    ensures ScoreAcademicEvidence(AcademicEvidence(None, None, Some(2019), Some(51), Some(0), None)) == 2
  {
  }

  // ---------------------------------------------------------------------
  // Expert-validation scorer (lines 135-158)

  /** A phrase the expert-validation scorer looks for, with the weight it gives. */
  datatype Phrase = Phrase(text: string, weight: int)

  /** The confidence levels in the order lines 143-148 test them. */
  const ConfidencePhrases: seq<Phrase> := [
    Phrase("high confidence", HighConfidenceWeight),
    Phrase("medium confidence", MediumConfidenceWeight),
    Phrase("low confidence", LowConfidenceWeight)]

  /** The support levels in the order lines 151-154 test them. */
  const SupportPhrases: seq<Phrase> := [
    Phrase("strongly supports", StronglySupportsWeight),
    Phrase("supports", SupportsWeight)]

  /** An `if`/`elif` chain: the weight of the first phrase found in `text`, 0 when none is. */
  function FirstWeight(text: string, phrases: seq<Phrase>): int {
    if phrases == [] then 0
    else if Contains(text, phrases[0].text) then phrases[0].weight
    else FirstWeight(text, phrases[1..])
  }

  /** The confidence weight: only the first of high, medium, low that occurs. */
  function ConfidenceWeight(text: string): int {
    FirstWeight(text, ConfidencePhrases)
  }

  /** The support weight: "strongly supports" before "supports". */
  function SupportWeight(text: string): int {
    FirstWeight(text, SupportPhrases)
  }

  /** The confidence weight as the chain of tests written out. */
  lemma ConfidenceChain(text: string)
    ensures ConfidenceWeight(text) ==
            if Contains(text, "high confidence") then HighConfidenceWeight
            else if Contains(text, "medium confidence") then MediumConfidenceWeight
            else if Contains(text, "low confidence") then LowConfidenceWeight
            else 0
  {
    var p0 := ConfidencePhrases;
    var p1 := [Phrase("medium confidence", MediumConfidenceWeight), Phrase("low confidence", LowConfidenceWeight)];
    var p2 := [Phrase("low confidence", LowConfidenceWeight)];
    assert p0[1..] == p1 && p1[1..] == p2 && p2[1..] == [];
    assert FirstWeight(text, p2) == if Contains(text, "low confidence") then LowConfidenceWeight else 0;
    assert FirstWeight(text, p1) ==
           if Contains(text, "medium confidence") then MediumConfidenceWeight else FirstWeight(text, p2);
    assert FirstWeight(text, p0) ==
           if Contains(text, "high confidence") then HighConfidenceWeight else FirstWeight(text, p1);
  }

  /** The support weight as the chain of tests written out. */
  lemma SupportChain(text: string)
    ensures SupportWeight(text) ==
            if Contains(text, "strongly supports") then StronglySupportsWeight
            else if Contains(text, "supports") then SupportsWeight
            else 0
  {
    var p0 := SupportPhrases;
    var p1 := [Phrase("supports", SupportsWeight)];
    assert p0[1..] == p1 && p1[1..] == [];
    assert FirstWeight(text, p1) == if Contains(text, "supports") then SupportsWeight else 0;
    assert FirstWeight(text, p0) ==
           if Contains(text, "strongly supports") then StronglySupportsWeight else FirstWeight(text, p1);
  }

  /** `score_expert_validation`, over the lower-cased text. */
  function ScoreExpertValidation(validation: Option<string>): (score: int)
    ensures 0 <= score <= 5
    ensures !Truthy(validation) ==> score == 0
  {
    if !Truthy(validation) then 0
    else
      var text := Lower(validation.value);
      ConfidenceChain(text);
      SupportChain(text);
      ConfidenceWeight(text) + SupportWeight(text)
  }

  /**
   * Confidence levels exclude each other: with "high confidence" present
   * the confidence part is 3 whatever else the text says, so the total is
   * 3 plus the support part and never the sum of all levels.
   */
  lemma HighConfidenceExcludesOthers(v: string)
    requires Contains(Lower(v), "high confidence")
    ensures ScoreExpertValidation(Some(v)) == HighConfidenceWeight + SupportWeight(Lower(v))
    ensures 3 <= ScoreExpertValidation(Some(v)) <= 5
  {
    ConfidenceChain(Lower(v));
    SupportChain(Lower(v));
  }

  /** Each confidence weight is given exactly when its phrase is the first one found. */
  lemma ConfidenceWeightCases(text: string)
    ensures ConfidenceWeight(text) == 3 <==> Contains(text, "high confidence")
    ensures ConfidenceWeight(text) == 2 <==> !Contains(text, "high confidence") && Contains(text, "medium confidence")
    ensures ConfidenceWeight(text) == 1 <==>
            !Contains(text, "high confidence") && !Contains(text, "medium confidence") && Contains(text, "low confidence")
  {
    ConfidenceChain(text);
  }

  /** "strongly supports" contains "supports", yet it is weighted 2, not 3. */
  lemma StronglySupportsWeighsTwo(text: string)
    requires Contains(text, "strongly supports")
    ensures Contains(text, "supports")
    ensures SupportWeight(text) == StronglySupportsWeight
  {
    assert ContainsAt("strongly supports", "supports", 9);
    ContainsIff("strongly supports", "supports");
    ContainsTransitive(text, "strongly supports", "supports");
    SupportChain(text);
  }

  /** Matching is case-insensitive. */
  lemma ExpertScoreIgnoresCase(v: string)
    ensures ScoreExpertValidation(Some(v)) == ScoreExpertValidation(Some(Lower(v)))
  {
    LowerIsLowerCase(v);
  }

  /** High confidence with strong support reaches the maximum, 5. */
  lemma HighConfidenceStrongSupportIsMaximal(v: string)
    requires Contains(Lower(v), "high confidence") && Contains(Lower(v), "strongly supports")
    ensures ScoreExpertValidation(Some(v)) == 5
  {
    StronglySupportsWeighsTwo(Lower(v));
    HighConfidenceExcludesOthers(v);
  }

  // ---------------------------------------------------------------------
  // Web scorer (lines 106-133)

  /** Every snippet is present; `None.lower()` would raise at line 114. */
  predicate SnippetsPresent(items: seq<WebItem>) {
    forall i :: 0 <= i < |items| ==> items[i].snippet.Some?
  }

  /** The weight the first `k` source patterns give the lower-cased source. */
  function PatternScore(source: string, k: nat): (score: int)
    requires k <= |SourcePatterns|
    ensures 0 <= score <= [0, 3, 5, 6][k]
  {
    if k == 0 then 0
    else
      var p := SourcePatterns[k - 1];
      PatternScore(source, k - 1) + (if MatchesDomain(source, p.domain) then p.weight else 0)
  }

  /** The categories those patterns append, in pattern order. */
  function PatternTags(source: string, k: nat): seq<Category>
    requires k <= |SourcePatterns|
  {
    if k == 0 then []
    else
      var p := SourcePatterns[k - 1];
      PatternTags(source, k - 1) + (if MatchesDomain(source, p.domain) then [p.category] else [])
  }

  /** The lower-cased source and snippet of a web item, as lines 113-114 compute them. */
  function SourceText(item: WebItem): string {
    Lower(item.source)
  }

  function SnippetText(item: WebItem): string
    requires item.snippet.Some?
  {
    Lower(item.snippet.value)
  }

  /** What one web item adds to the score. */
  function ItemScore(item: WebItem): (score: int)
    requires item.snippet.Some?
    ensures 0 <= score <= 9
  {
    PatternScore(SourceText(item), |SourcePatterns|)
    + (if AnyIn(ResearchIndicators, SnippetText(item)) then ResearchIndicatorsWeight else 0)
    + (if AnyIn(RecognitionIndicators, SnippetText(item)) then RecognitionIndicatorsWeight else 0)
  }

  /** The categories one web item appends, in the order the loop appends them. */
  function ItemTags(item: WebItem): seq<Category>
    requires item.snippet.Some?
  {
    PatternTags(SourceText(item), |SourcePatterns|)
    + (if AnyIn(ResearchIndicators, SnippetText(item)) then [ResearchBased] else [])
    + (if AnyIn(RecognitionIndicators, SnippetText(item)) then [Recognition] else [])
  }

  /** The score summed over the items; each adds between 0 and 9. */
  function WebScore(items: seq<WebItem>): (score: int)
    requires SnippetsPresent(items)
    ensures 0 <= score <= 9 * |items|
  {
    if items == [] then 0 else WebScore(items[..|items| - 1]) + ItemScore(items[|items| - 1])
  }

  /** Every category appended over all items, duplicates included. */
  function WebTags(items: seq<WebItem>): seq<Category>
    requires SnippetsPresent(items)
  {
    if items == [] then [] else WebTags(items[..|items| - 1]) + ItemTags(items[|items| - 1])
  }

  /** The web score of two lists one after the other is the sum of their scores. */
  lemma {:induction false} WebScoreAppend(a: seq<WebItem>, b: seq<WebItem>)
    requires SnippetsPresent(a) && SnippetsPresent(b)
    ensures SnippetsPresent(a + b)
    ensures WebScore(a + b) == WebScore(a) + WebScore(b)
    decreases |b|
  {
    assert SnippetsPresent(a + b) by {
      forall i | 0 <= i < |a + b| ensures (a + b)[i].snippet.Some? {
        if i >= |a| {
          assert (a + b)[i] == b[i - |a|];
        }
      }
    }
    if b == [] {
      assert a + b == a;
    } else {
      assert (a + b)[..|a + b| - 1] == a + b[..|b| - 1];
      WebScoreAppend(a, b[..|b| - 1]);
    }
  }

  /** The weight a web category carries. */
  function WebTagWeight(c: Category): int {
    match c
    case Government => GovernmentWeight
    case Academic => AcademicSourceWeight
    case Organization => OrganizationWeight
    case ResearchBased => ResearchIndicatorsWeight
    case Recognition => RecognitionIndicatorsWeight
    case ExpertValidated => 0
  }

  function TagWeightSum(tags: seq<Category>): int {
    if tags == [] then 0 else TagWeightSum(tags[..|tags| - 1]) + WebTagWeight(tags[|tags| - 1])
  }

  lemma {:induction false} TagWeightSumAppend(a: seq<Category>, b: seq<Category>)
    ensures TagWeightSum(a + b) == TagWeightSum(a) + TagWeightSum(b)
    decreases |b|
  {
    if b == [] {
      assert a + b == a;
    } else {
      assert (a + b)[..|a + b| - 1] == a + b[..|b| - 1];
      TagWeightSumAppend(a, b[..|b| - 1]);
    }
  }

  lemma {:induction false} PatternTagsWeigh(source: string, k: nat)
    requires k <= |SourcePatterns|
    ensures TagWeightSum(PatternTags(source, k)) == PatternScore(source, k)
  {
    if k > 0 {
      PatternTagsWeigh(source, k - 1);
      var p := SourcePatterns[k - 1];
      TagWeightSumAppend(PatternTags(source, k - 1), if MatchesDomain(source, p.domain) then [p.category] else []);
    }
  }

  /** An item's score is exactly the weight of the categories it is tagged with. */
  lemma {:induction false} ItemScoreIsTagWeight(item: WebItem)
    requires item.snippet.Some?
    ensures TagWeightSum(ItemTags(item)) == ItemScore(item)
  {
    var src := SourceText(item);
    var t1 := PatternTags(src, |SourcePatterns|);
    var t2 := if AnyIn(ResearchIndicators, SnippetText(item)) then [ResearchBased] else [];
    var t3 := if AnyIn(RecognitionIndicators, SnippetText(item)) then [Recognition] else [];
    PatternTagsWeigh(src, |SourcePatterns|);
    TagWeightSumAppend(t1, t2);
    TagWeightSumAppend(t1 + t2, t3);
  }

  /** The three source patterns are tested independently of each other. */
  lemma SourcePatternsIndependent(source: string)
    ensures PatternScore(source, |SourcePatterns|) ==
            (if MatchesDomain(source, ".gov") then GovernmentWeight else 0) +
            (if MatchesDomain(source, ".edu") then AcademicSourceWeight else 0) +
            (if MatchesDomain(source, ".org") then OrganizationWeight else 0)
  {
    assert PatternScore(source, 1) == if MatchesDomain(source, ".gov") then GovernmentWeight else 0;
    assert PatternScore(source, 2) == PatternScore(source, 1) +
                                      (if MatchesDomain(source, ".edu") then AcademicSourceWeight else 0);
  }

  /** The inner loop of `score_web_evidence` (lines 117-121), over SOURCE_PATTERNS. */
  method ScoreSource(source: string, score0: int, tags0: seq<Category>) returns (score: int, tags: seq<Category>)
    ensures score == score0 + PatternScore(source, |SourcePatterns|)
    ensures tags == tags0 + PatternTags(source, |SourcePatterns|)
  {
    score, tags := score0, tags0;
    for k := 0 to |SourcePatterns|
      invariant score == score0 + PatternScore(source, k)
      invariant tags == tags0 + PatternTags(source, k)
    {
      var p := SourcePatterns[k];
      if MatchesDomain(source, p.domain) {
        score := score + p.weight;
        tags := tags + [p.category];
      }
    }
  }

  /**
   * The body of the outer loop of `score_web_evidence` (lines 113-128): adds
   * one item's weights to the running score and appends its categories.
   */
  method ScoreWebItem(item: WebItem, score0: int, tags0: seq<Category>) returns (score: int, tags: seq<Category>)
    requires item.snippet.Some?
    ensures score == score0 + ItemScore(item)
    ensures tags == tags0 + ItemTags(item)
  {
    var source := Lower(item.source);
    var snippet := Lower(item.snippet.value);
    score, tags := ScoreSource(source, score0, tags0);
    ghost var t1 := PatternTags(source, |SourcePatterns|);
    var research := AnyIn(ResearchIndicators, snippet);
    var recognition := AnyIn(RecognitionIndicators, snippet);
    ghost var t2 := if research then [ResearchBased] else [];
    ghost var t3 := if recognition then [Recognition] else [];
    if research {
      score := score + ResearchIndicatorsWeight;
      tags := tags + [ResearchBased];
    }
    assert tags == tags0 + t1 + t2;
    if recognition {
      score := score + RecognitionIndicatorsWeight;
      tags := tags + [Recognition];
    }
    assert tags == tags0 + (t1 + t2 + t3);
  }

  /**
   * `score_web_evidence`: loops over the items and over the patterns,
   * summing weights and collecting categories, and returns the categories
   * without duplicates. Python builds that list from a set, in an order set
   * iteration chooses; the model keeps first occurrences in order.
   */
  method ScoreWebEvidence(items: seq<WebItem>) returns (score: int, categories: seq<Category>)
    requires SnippetsPresent(items)
    ensures score == WebScore(items)
    ensures categories == Dedup(WebTags(items))
  {
    score := 0;
    var tags: seq<Category> := [];
    for i := 0 to |items|
      invariant score == WebScore(items[..i])
      invariant tags == WebTags(items[..i])
    {
      score, tags := ScoreWebItem(items[i], score, tags);
      assert items[..i + 1][..i] == items[..i];
    }
    assert items[..|items|] == items;
    categories := Dedup(tags);
  }

  // ---------------------------------------------------------------------
  // Aggregate scorer (lines 70-91)

  /** Python truthiness of the academic field: not None and not `{}`. */
  predicate AcademicTruthy(a: Option<AcademicEvidence>) {
    a.Some? && a.value.NonEmpty()
  }

  /** What `score_evidence` may be applied to: no snippet is None. */
  predicate Scorable(r: EvidenceRecord) {
    SnippetsPresent(r.webEvidence)
  }

  /** The three block scores; a block whose field is falsy adds 0. */
  function AcademicPart(academic: Option<AcademicEvidence>): int {
    if AcademicTruthy(academic) then ScoreAcademicEvidence(academic.value) else 0
  }

  function WebPart(web: seq<WebItem>): int
    requires SnippetsPresent(web)
  {
    if web != [] then WebScore(web) else 0
  }

  function ExpertPart(expert: Option<string>): int {
    if Truthy(expert) then ScoreExpertValidation(expert) else 0
  }

  /** The strength score `score_evidence` writes. */
  function Strength(r: EvidenceRecord): (score: int)
    requires Scorable(r)
    ensures 0 <= score <= 10 + 9 * |r.webEvidence|
  {
    AcademicPart(r.academicEvidence) + WebPart(r.webEvidence) + ExpertPart(r.expertValidation)
  }

  /** The category list `score_evidence` writes. */
  function ScoredCategories(r: EvidenceRecord): seq<Category>
    requires Scorable(r)
  {
    AcademicTags(r.academicEvidence) + WebCategories(r.webEvidence) + ExpertTags(r.expertValidation)
  }

  /** The tags each block contributes; a block whose field is falsy adds none. */
  function AcademicTags(academic: Option<AcademicEvidence>): seq<Category> {
    if AcademicTruthy(academic) then [Academic] else []
  }

  function WebCategories(web: seq<WebItem>): seq<Category>
    requires SnippetsPresent(web)
  {
    if web != [] then Dedup(WebTags(web)) else []
  }

  function ExpertTags(expert: Option<string>): seq<Category> {
    if Truthy(expert) && ScoreExpertValidation(expert) > 0 then [ExpertValidated] else []
  }

  /**
   * `score_evidence`: resets both derived fields, then adds each block whose
   * field is truthy. It never reads the old score or categories, so scoring
   * a record again gives the same result (ScoringIsIdempotent).
   */
  method ScoreEvidence(evidence: EvidenceRecord) returns (scored: EvidenceRecord)
    requires Scorable(evidence)
    modifies evidence
    ensures scored == evidence
    ensures evidence.strengthScore == Strength(evidence)
    ensures evidence.categories == ScoredCategories(evidence)
  {
    evidence.strengthScore := 0;
    evidence.categories := [];
    AddAcademicBlock(evidence);
    AddWebBlock(evidence);
    AddExpertBlock(evidence);
    assert [] + AcademicTags(evidence.academicEvidence) == AcademicTags(evidence.academicEvidence);
    scored := evidence;
  }

  /** Lines 75-78: a truthy academic dictionary adds its score and the tag 'academic'. */
  method AddAcademicBlock(evidence: EvidenceRecord)
    modifies evidence
    ensures evidence.strengthScore == old(evidence.strengthScore) + AcademicPart(evidence.academicEvidence)
    ensures evidence.categories == old(evidence.categories) + AcademicTags(evidence.academicEvidence)
  {
    if AcademicTruthy(evidence.academicEvidence) {
      var academicScore := ScoreAcademicEvidence(evidence.academicEvidence.value);
      evidence.strengthScore := evidence.strengthScore + academicScore;
      evidence.categories := evidence.categories + [Academic];
    }
  }

  /** Lines 80-83: a non-empty web list adds its score and extends the tags with its categories. */
  method AddWebBlock(evidence: EvidenceRecord)
    requires Scorable(evidence)
    modifies evidence
    ensures evidence.strengthScore == old(evidence.strengthScore) + WebPart(evidence.webEvidence)
    ensures evidence.categories == old(evidence.categories) + WebCategories(evidence.webEvidence)
  {
    if evidence.webEvidence != [] {
      var webScore, webCategories := ScoreWebEvidence(evidence.webEvidence);
      evidence.strengthScore := evidence.strengthScore + webScore;
      evidence.categories := evidence.categories + webCategories;
    }
  }

  /** Lines 85-89: a truthy expert text adds its score, and the tag 'expert_validated' only when that score is positive. */
  method AddExpertBlock(evidence: EvidenceRecord)
    modifies evidence
    ensures evidence.strengthScore == old(evidence.strengthScore) + ExpertPart(evidence.expertValidation)
    ensures evidence.categories == old(evidence.categories) + ExpertTags(evidence.expertValidation)
  {
    if Truthy(evidence.expertValidation) {
      var expertScore := ScoreExpertValidation(evidence.expertValidation);
      evidence.strengthScore := evidence.strengthScore + expertScore;
      if expertScore > 0 {
        evidence.categories := evidence.categories + [ExpertValidated];
      }
    }
  }

  /** Scoring twice leaves the record as scoring once does. */
  method ScoringIsIdempotent(evidence: EvidenceRecord)
    requires Scorable(evidence)
    modifies evidence
    ensures evidence.strengthScore == Strength(evidence)
    ensures evidence.categories == ScoredCategories(evidence)
  {
    var _ := ScoreEvidence(evidence);
    var score, categories := evidence.strengthScore, evidence.categories;
    var _ := ScoreEvidence(evidence);
    assert evidence.strengthScore == score && evidence.categories == categories;
  }

  /** A record whose three fields are all falsy scores 0 and gets no tag. */
  lemma FalsyFieldsScoreNothing(r: EvidenceRecord)
    requires !AcademicTruthy(r.academicEvidence) && r.webEvidence == [] && !Truthy(r.expertValidation)
    ensures Scorable(r) && Strength(r) == 0 && ScoredCategories(r) == []
  {
  }

  /**
   * 'academic' comes first whenever the academic dictionary is non-empty,
   * even when it scores 0; 'expert_validated' is present exactly when the
   * expert text is truthy and scores above 0.
   */
  lemma CategoryTagsAndBlocks(r: EvidenceRecord)
    requires Scorable(r)
    ensures AcademicTruthy(r.academicEvidence) ==> ScoredCategories(r)[0] == Academic
    ensures ExpertValidated in ScoredCategories(r) <==>
            Truthy(r.expertValidation) && ScoreExpertValidation(r.expertValidation) > 0
  {
    var a := if AcademicTruthy(r.academicEvidence) then [Academic] else [];
    var w := if r.webEvidence != [] then Dedup(WebTags(r.webEvidence)) else [];
    assert ExpertValidated !in a;
    assert ExpertValidated !in w by {
      if r.webEvidence != [] {
        WebTagsAreWebCategories(r.webEvidence);
        DedupSpec(WebTags(r.webEvidence));
      }
    }
  }

  lemma {:induction false} WebTagsAreWebCategories(items: seq<WebItem>)
    requires SnippetsPresent(items)
    ensures ExpertValidated !in WebTags(items)
  {
    if items != [] {
      WebTagsAreWebCategories(items[..|items| - 1]);
      PatternTagsAreSourceCategories(SourceText(items[|items| - 1]), |SourcePatterns|);
    }
  }

  lemma {:induction false} PatternTagsAreSourceCategories(source: string, k: nat)
    requires k <= |SourcePatterns|
    ensures ExpertValidated !in PatternTags(source, k)
  {
    if k > 0 {
      PatternTagsAreSourceCategories(source, k - 1);
    }
  }

  /** Every category some item is tagged with is among the web categories. */
  lemma {:induction false} WebTagsCollectItemTags(items: seq<WebItem>, i: int, c: Category)
    requires SnippetsPresent(items) && 0 <= i < |items|
    requires c in ItemTags(items[i])
    ensures c in WebTags(items)
  {
    var init := items[..|items| - 1];
    if i < |items| - 1 {
      assert init[i] == items[i];
      WebTagsCollectItemTags(init, i, c);
    }
  }

  /**
   * The categories list is a list, not a set: with a non-empty academic
   * dictionary and an `.edu` web source, 'academic' occurs exactly twice.
   */
  lemma AcademicTagCanRepeat(r: EvidenceRecord, i: int)
    requires Scorable(r) && AcademicTruthy(r.academicEvidence)
    requires 0 <= i < |r.webEvidence| && MatchesDomain(SourceText(r.webEvidence[i]), ".edu")
    ensures Count(ScoredCategories(r), Academic) == 2
  {
    var item := r.webEvidence[i];
    assert Academic in PatternTags(SourceText(item), 2);
    assert Academic in ItemTags(item);
    WebTagsCollectItemTags(r.webEvidence, i, Academic);
    var w := Dedup(WebTags(r.webEvidence));
    DedupSpec(WebTags(r.webEvidence));
    CountNoDup(w, Academic);
    var e := if Truthy(r.expertValidation) && ScoreExpertValidation(r.expertValidation) > 0
             then [ExpertValidated] else [];
    CountAppend([Academic], w, Academic);
    CountAppend([Academic] + w, e, Academic);
  }

  // ---------------------------------------------------------------------
  // Filter and rank (lines 48-68)

  /** The records, in input order, whose strength reaches the minimum score. */
  function Kept(s: seq<EvidenceRecord>): (kept: seq<EvidenceRecord>)
    requires forall i :: 0 <= i < |s| ==> Scorable(s[i])
    ensures |kept| <= |s|
  {
    if s == [] then []
    else
      var r := s[|s| - 1];
      Kept(s[..|s| - 1]) + (if Strength(r) >= MinimumEvidenceScore then [r] else [])
  }

  /** A record whose derived fields hold what scoring writes. */
  predicate IsScored(r: EvidenceRecord)
    reads r
  {
    Scorable(r) && r.strengthScore == Strength(r) && r.categories == ScoredCategories(r)
  }

  /**
   * The ranking key, `strength_score`. Scoring makes the field equal to
   * Strength, so the key is Strength; as a sort key it has to be total, and
   * it reads 0 for a record no scoring could accept.
   */
  function RankKey(r: EvidenceRecord): int {
    if Scorable(r) then Strength(r) else 0
  }

  /**
   * `validate_and_rank_evidence`: scores every record in place (those it
   * drops too), keeps those scoring at least 3 and sorts them stably by
   * score, highest first.
   */
  method ValidateAndRank(collection: seq<EvidenceRecord>) returns (ranked: seq<EvidenceRecord>)
    requires forall i :: 0 <= i < |collection| ==> Scorable(collection[i])
    modifies collection
    ensures forall i :: 0 <= i < |collection| ==> IsScored(collection[i])
    ensures ranked == Ranking.SortDesc(Kept(collection), RankKey)
    ensures forall i :: 0 <= i < |ranked| ==> ranked[i].strengthScore == RankKey(ranked[i])
  {
    var validated := ScoreAndFilter(collection);
    ranked := Ranking.SortDesc(validated, RankKey);
    forall i | 0 <= i < |ranked|
      ensures ranked[i].strengthScore == RankKey(ranked[i])
    {
      assert ranked[i] in multiset(validated);
      KeptMembers(collection, ranked[i]);
      var j :| 0 <= j < |collection| && collection[j] == ranked[i];
      assert IsScored(collection[j]);
    }
  }

  /** The loop at lines 60-63: scores every record and keeps those reaching the minimum. */
  method ScoreAndFilter(collection: seq<EvidenceRecord>) returns (validated: seq<EvidenceRecord>)
    requires forall i :: 0 <= i < |collection| ==> Scorable(collection[i])
    modifies collection
    ensures forall i :: 0 <= i < |collection| ==> IsScored(collection[i])
    ensures validated == Kept(collection)
  {
    validated := [];
    for i := 0 to |collection|
      invariant forall j :: 0 <= j < i ==> IsScored(collection[j])
      invariant validated == Kept(collection[..i])
    {
      validated := ScoreNext(collection, i, validated);
    }
    assert collection[..|collection|] == collection;
  }

  /** One pass of the loop keeps its invariant: the records visited so far are scored, and the kept ones collected. */
  method ScoreNext(collection: seq<EvidenceRecord>, i: nat, validated: seq<EvidenceRecord>) returns (kept: seq<EvidenceRecord>)
    requires i < |collection| && forall j :: 0 <= j < |collection| ==> Scorable(collection[j])
    requires forall j :: 0 <= j < i ==> IsScored(collection[j])
    requires validated == Kept(collection[..i])
    modifies collection[i]
    ensures forall j :: 0 <= j < i + 1 ==> IsScored(collection[j])
    ensures kept == Kept(collection[..i + 1])
  {
    KeptSnoc(collection, i);
    label before:
    kept := ScoreAndKeep(collection[i], validated);
    forall j | 0 <= j < i + 1
      ensures IsScored(collection[j])
    {
      if collection[j] != collection[i] {
        assert old@before(IsScored(collection[j]));
      }
    }
  }

  /** The body of the loop at lines 60-63: score one record, keep it if it reaches the minimum. */
  method ScoreAndKeep(evidence: EvidenceRecord, validated: seq<EvidenceRecord>) returns (kept: seq<EvidenceRecord>)
    requires Scorable(evidence)
    modifies evidence
    ensures IsScored(evidence)
    ensures kept == validated + if Strength(evidence) >= MinimumEvidenceScore then [evidence] else []
  {
    var scored := ScoreEvidence(evidence);
    kept := validated;
    if scored.strengthScore >= MinimumEvidenceScore {
      kept := kept + [scored];
    }
  }

  /** Kept grows by the next record exactly when that record's strength reaches the minimum. */
  lemma KeptSnoc(s: seq<EvidenceRecord>, i: nat)
    requires i < |s| && forall j :: 0 <= j < |s| ==> Scorable(s[j])
    ensures Kept(s[..i + 1]) == Kept(s[..i]) + if Strength(s[i]) >= MinimumEvidenceScore then [s[i]] else []
  {
    assert s[..i + 1][..i] == s[..i];
  }

  lemma {:induction false} KeptMembers(s: seq<EvidenceRecord>, r: EvidenceRecord)
    requires forall i :: 0 <= i < |s| ==> Scorable(s[i])
    requires r in Kept(s)
    ensures r in s && Scorable(r) && Strength(r) >= MinimumEvidenceScore
  {
    if s != [] {
      if r != s[|s| - 1] || Strength(r) < MinimumEvidenceScore {
        KeptMembers(s[..|s| - 1], r);
      }
    }
  }

  /**
   * The filter keeps exactly the records scoring at least 3, each as many
   * times as it occurs: 3 is kept, 2 is dropped.
   */
  lemma {:induction false} KeptExactly(s: seq<EvidenceRecord>, r: EvidenceRecord)
    requires forall i :: 0 <= i < |s| ==> Scorable(s[i])
    requires Scorable(r)
    ensures multiset(Kept(s))[r] == if Strength(r) >= MinimumEvidenceScore then multiset(s)[r] else 0
  {
    if s != [] {
      var init := s[..|s| - 1];
      KeptExactly(init, r);
      SnocSplit([], s);
    }
  }

  /**
   * The ranked output is non-increasing in score, holds only records scoring
   * at least 3, is no longer than the input, and keeps records of equal
   * score in input order (for a score below 3, no record at all).
   */
  lemma RankedOrderAndStability(s: seq<EvidenceRecord>, k: int)
    requires forall i :: 0 <= i < |s| ==> Scorable(s[i])
    ensures Ranking.SortedDesc(Ranking.SortDesc(Kept(s), RankKey), RankKey)
    ensures |Ranking.SortDesc(Kept(s), RankKey)| <= |s|
    ensures Ranking.WithKey(Ranking.SortDesc(Kept(s), RankKey), RankKey, k) ==
            if k >= MinimumEvidenceScore then Ranking.WithKey(s, RankKey, k) else []
  {
    Ranking.SortDescStable(Kept(s), RankKey, k);
    KeptWithKey(s, k);
  }

  lemma {:induction false} KeptWithKey(s: seq<EvidenceRecord>, k: int)
    requires forall i :: 0 <= i < |s| ==> Scorable(s[i])
    ensures Ranking.WithKey(Kept(s), RankKey, k) ==
            if k >= MinimumEvidenceScore then Ranking.WithKey(s, RankKey, k) else []
    decreases |s|
  {
    if s != [] {
      var init, r := s[..|s| - 1], s[|s| - 1];
      KeptWithKey(init, k);
      var tail := if Strength(r) >= MinimumEvidenceScore then [r] else [];
      WithKeyAppend(Kept(init), tail, RankKey, k);
      WithKeyAppend(init, [r], RankKey, k);
      SnocSplit([], s);
    }
  }

  lemma {:induction false} WithKeyAppend<T>(a: seq<T>, b: seq<T>, key: T -> int, k: int)
    ensures Ranking.WithKey(a + b, key, k) == Ranking.WithKey(a, key, k) + Ranking.WithKey(b, key, k)
  {
    if a != [] {
      assert (a + b)[1..] == a[1..] + b;
      WithKeyAppend(a[1..], b, key, k);
    } else {
      assert a + b == b;
    }
  }

  /** Two records of equal score come out in the order they went in. */
  lemma StableTies(a: EvidenceRecord, b: EvidenceRecord)
    requires Scorable(a) && Scorable(b) && a != b
    requires Strength(a) == Strength(b) >= MinimumEvidenceScore
    ensures Ranking.SortDesc(Kept([a, b]), RankKey) == [a, b]
  {
    assert [a, b][..1] == [a];
    assert [a][..0] == [];
    assert Kept([a, b]) == [a, b];
  }

  // ---------------------------------------------------------------------
  // Categoriser (lines 160-176)

  /**
   * The bucket for category `c`: each record once per occurrence of `c` in
   * its `categories`, in input order.
   */
  function Bucket(s: seq<EvidenceRecord>, c: Category): seq<EvidenceRecord>
    reads s
  {
    if s == [] then []
    else
      var r := s[|s| - 1];
      Bucket(s[..|s| - 1], c) + Repeat(r, Count(r.categories, c))
  }

  /** The bucket of `c` in `buckets`, `[]` when there is none (a `defaultdict(list)` read). */
  function Entry(buckets: map<Category, seq<EvidenceRecord>>, c: Category): seq<EvidenceRecord> {
    if c in buckets then buckets[c] else []
  }

  /**
   * `categorize_evidence`: a bucket per category that occurs, none empty,
   * each holding the records tagged with it in input order.
   */
  method CategorizeEvidence(validated: seq<EvidenceRecord>) returns (buckets: map<Category, seq<EvidenceRecord>>)
    ensures forall c :: c in buckets <==> Bucket(validated, c) != []
    ensures forall c :: c in buckets ==> buckets[c] == Bucket(validated, c)
  {
    buckets := map[];
    for i := 0 to |validated|
      invariant forall c :: c in buckets <==> Bucket(validated[..i], c) != []
      invariant forall c :: Entry(buckets, c) == Bucket(validated[..i], c)
    {
      assert validated[..i + 1][..i] == validated[..i];
      buckets := FileRecord(buckets, validated[i]);
    }
    assert validated[..|validated|] == validated;
  }

  /** The inner loop of `categorize_evidence` (lines 173-174): files one record under each of its tags. */
  method FileRecord(buckets: map<Category, seq<EvidenceRecord>>, r: EvidenceRecord)
    returns (filed: map<Category, seq<EvidenceRecord>>)
    ensures forall c :: c in filed <==> c in buckets || c in r.categories
    ensures forall c :: Entry(filed, c) == Entry(buckets, c) + Repeat(r, Count(r.categories, c))
  {
    var cats := r.categories;
    filed := buckets;
    for j := 0 to |cats|
      invariant forall c :: c in filed <==> c in buckets || c in cats[..j]
      invariant forall c :: Entry(filed, c) == Entry(buckets, c) + Repeat(r, Count(cats[..j], c))
    {
      FiledStep(buckets, filed, r, cats, j);
      filed := filed[cats[j] := Entry(filed, cats[j]) + [r]];
    }
    assert cats[..|cats|] == cats;
  }

  /** Filing under the next tag keeps every bucket equal to the old one plus one copy per tag seen. */
  lemma FiledStep(buckets: map<Category, seq<EvidenceRecord>>, before: map<Category, seq<EvidenceRecord>>,
                  r: EvidenceRecord, cats: seq<Category>, j: nat)
    requires j < |cats|
    requires forall c :: c in before <==> c in buckets || c in cats[..j]
    requires forall c :: Entry(before, c) == Entry(buckets, c) + Repeat(r, Count(cats[..j], c))
    ensures forall c :: c in before[cats[j] := Entry(before, cats[j]) + [r]] <==> c in buckets || c in cats[..j + 1]
    ensures forall c :: Entry(before[cats[j] := Entry(before, cats[j]) + [r]], c) ==
                        Entry(buckets, c) + Repeat(r, Count(cats[..j + 1], c))
  {
    assert cats[..j + 1] == cats[..j] + [cats[j]];
    forall c
      ensures Entry(before[cats[j] := Entry(before, cats[j]) + [r]], c) == Entry(buckets, c) + Repeat(r, Count(cats[..j + 1], c))
    {
      FiledStepAt(buckets, before, r, cats, j, c);
    }
  }

  lemma FiledStepAt(buckets: map<Category, seq<EvidenceRecord>>, before: map<Category, seq<EvidenceRecord>>,
                    r: EvidenceRecord, cats: seq<Category>, j: nat, c: Category)
    requires j < |cats|
    requires Entry(before, c) == Entry(buckets, c) + Repeat(r, Count(cats[..j], c))
    requires Entry(before, cats[j]) == Entry(buckets, cats[j]) + Repeat(r, Count(cats[..j], cats[j]))
    ensures Entry(before[cats[j] := Entry(before, cats[j]) + [r]], c) == Entry(buckets, c) + Repeat(r, Count(cats[..j + 1], c))
  {
    var n := Count(cats[..j], c);
    CountSnoc(cats, j, c);
    if c == cats[j] {
      RepeatSnoc(r, n);
      AppendAssoc(Entry(buckets, c), Repeat(r, n), [r]);
    }
  }

  lemma {:induction false} BucketAppend(a: seq<EvidenceRecord>, b: seq<EvidenceRecord>, c: Category)
    ensures Bucket(a + b, c) == Bucket(a, c) + Bucket(b, c)
    decreases |b|
  {
    if b == [] {
      assert a + b == a;
    } else {
      assert (a + b)[..|a + b| - 1] == a + b[..|b| - 1];
      BucketAppend(a, b[..|b| - 1], c);
    }
  }

  /** A record lands in bucket `c` as often as `c` occurs in its categories. */
  lemma {:induction false} BucketCount(s: seq<EvidenceRecord>, c: Category)
    ensures |Bucket(s, c)| == SumCounts(s, c)
  {
    if s != [] {
      BucketCount(s[..|s| - 1], c);
    }
  }

  function SumCounts(s: seq<EvidenceRecord>, c: Category): nat
    reads s
  {
    if s == [] then 0 else SumCounts(s[..|s| - 1], c) + Count(s[|s| - 1].categories, c)
  }

  /** Sum over all categories of the bucket sizes. */
  function TotalEntries(s: seq<EvidenceRecord>, cs: seq<Category>): nat
    reads s
  {
    if cs == [] then 0 else TotalEntries(s, cs[..|cs| - 1]) + |Bucket(s, cs[|cs| - 1])|
  }

  function SumLengths(s: seq<EvidenceRecord>): nat
    reads s
  {
    if s == [] then 0 else SumLengths(s[..|s| - 1]) + |s[|s| - 1].categories|
  }

  /** Every category occurs once in AllCategories, so its counts add up to the length. */
  lemma {:induction false} CountsOverAllCategories(cats: seq<Category>)
    ensures Count(cats, Academic) + Count(cats, Government) + Count(cats, Organization) +
            Count(cats, ResearchBased) + Count(cats, Recognition) + Count(cats, ExpertValidated) == |cats|
  {
    if cats != [] {
      var init, last := cats[..|cats| - 1], cats[|cats| - 1];
      CountsOverAllCategories(init);
      assert Count(cats, Academic) == Count(init, Academic) + (if last == Academic then 1 else 0);
      assert Count(cats, Government) == Count(init, Government) + (if last == Government then 1 else 0);
      assert Count(cats, Organization) == Count(init, Organization) + (if last == Organization then 1 else 0);
      assert Count(cats, ResearchBased) == Count(init, ResearchBased) + (if last == ResearchBased then 1 else 0);
      assert Count(cats, Recognition) == Count(init, Recognition) + (if last == Recognition then 1 else 0);
      assert Count(cats, ExpertValidated) == Count(init, ExpertValidated) + (if last == ExpertValidated then 1 else 0);
    }
  }

  /**
   * The buckets hold as many entries in all as the records hold category
   * tags: nothing is lost or invented by the regrouping.
   */
  lemma BucketsTotal(s: seq<EvidenceRecord>)
    ensures TotalEntries(s, AllCategories) == SumLengths(s)
  {
    TotalOverAll(s);
    BucketCount(s, Academic);
    BucketCount(s, Government);
    BucketCount(s, Organization);
    BucketCount(s, ResearchBased);
    BucketCount(s, Recognition);
    BucketCount(s, ExpertValidated);
    SumCountsTotal(s);
  }

  /** The sum over AllCategories, written out. */
  lemma TotalOverAll(s: seq<EvidenceRecord>)
    ensures TotalEntries(s, AllCategories) ==
      |Bucket(s, Academic)| + |Bucket(s, Government)| + |Bucket(s, Organization)| +
      |Bucket(s, ResearchBased)| + |Bucket(s, Recognition)| + |Bucket(s, ExpertValidated)|
  {
    var cs := AllCategories;
    assert cs[..0] == [];
    TotalEntriesSnoc(s, cs, 0);
    TotalEntriesSnoc(s, cs, 1);
    TotalEntriesSnoc(s, cs, 2);
    TotalEntriesSnoc(s, cs, 3);
    TotalEntriesSnoc(s, cs, 4);
    TotalEntriesSnoc(s, cs, 5);
    assert cs[..6] == cs;
  }

  lemma TotalEntriesSnoc(s: seq<EvidenceRecord>, cs: seq<Category>, j: nat)
    requires j < |cs|
    ensures TotalEntries(s, cs[..j + 1]) == TotalEntries(s, cs[..j]) + |Bucket(s, cs[j])|
  {
    assert cs[..j + 1][..j] == cs[..j];
  }

  lemma {:induction false} SumCountsTotal(s: seq<EvidenceRecord>)
    ensures SumCounts(s, Academic) + SumCounts(s, Government) + SumCounts(s, Organization) +
            SumCounts(s, ResearchBased) + SumCounts(s, Recognition) + SumCounts(s, ExpertValidated) == SumLengths(s)
  {
    if s != [] {
      SumCountsTotal(s[..|s| - 1]);
      CountsOverAllCategories(s[|s| - 1].categories);
    }
  }
}
