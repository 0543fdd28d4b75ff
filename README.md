# EB-2 NIW evidence pipeline: a verified model of its core

This project models, in Dafny, the deterministic core of a pipeline that
assembles supporting evidence for an EB-2 National Interest Waiver petition.
It covers four steps:

- **Claim extraction** (`src/pipeline_steps/step2_extract_claims.py`). The
  parser turns the language model's `CLAIM TYPE:` / `CLAIM TEXT:` /
  `EVIDENCE:` reply into `(type, text, evidence)` tuples, using a pending
  dict that is flushed on every new type line and once at the end. The
  keyword classifier labels a sentence `merit` or `importance` from keyword
  substrings. The combined extractor passes the parser's list through.
- **Evidence gathering** (`src/pipeline_steps/step3_evidence_gather.py`).
  This step runs the academic-reference test. The search helpers tag each
  hit with their provider's name. One evidence record is built per claim.
- **Validation** (`src/evidence_validator.py`).
  - Scoring: the academic, web-source and expert-validation scorers, and
    the aggregate scorer that writes `strength_score` and `categories` into
    the record in place.
  - The threshold filter and the stable descending sort.
  - The categoriser, which files each record under every one of its tags.
- **Report assembly** (`src/pipeline_steps/step5_report_generator.py`).
  - Claims are grouped by type, in order of first appearance.
  - The `evidence_summary` lines: "Claim Type:", "Claim:", "Context:" and
    "Supporting Evidence:".
  - The template report: a fixed sequence of headings, with the evidence
    slotted in by category and joined by blank lines.

## How the model is organised

| file | module | what it holds |
|---|---|---|
| `wrappers.dfy` | `Wrappers` | `Option`, `Result`, and `KeyError` for Python's `KeyError` |
| `seqs.dfy` | `Seqs` | first-occurrence de-duplication and occurrence counts |
| `text.dfy` | `Text` | ASCII `lower`, `in` on strings, `strip` over Python's whitespace set, `split` and `join` |
| `evidence_model.dfy` | `EvidenceModel` | the category tags, web items, the academic block, and the record class |
| `evidence_validator.dfy` | `EvidenceValidator` | the scorers, filter, ranking and categoriser |
| `ranking.dfy` | `Ranking` | a stable descending insertion sort, characterised as *the* stable sort |
| `claims.dfy` | `ClaimExtraction` | the reply parser, its round trip with the reply format, and the keyword classifier |
| `gathering.dfy` | `Gathering` | the academic-reference test, the search helpers and record construction |
| `report_summary.dfy` | `ReportSummary` | the grouping and the evidence-summary lines |
| `report_template.dfy` | `ReportTemplate` | the template report |

**State-changing code.** Code that changes state in the source is
imperative here.

- An evidence record is a class. Its gathered fields are `const`, and
  `strengthScore` and `categories` are the `var`s the scorer assigns.
- Loops are methods with invariants. Each is proved equal to a function
  that states what it computes.
- Exceptions are `Err` results. Services and models are inputs:
  - a search service's answer for a query is a parameter;
  - so is the scholarly lookup's dictionary and the expert model's text;
  - for all claims, a function from query text to those answers.

**The template's fixed paragraphs.** The headings, the overview, the merit
summary and the experts' introduction form a `Frame` value built from the
applicant (`FrameOf`). The report's properties are proved for every frame,
and `FrameNamesApplicant` ties the frame to the applicant's name and field.

**Decisions on Python behaviour.**

- `list(set(categories))` has no defined order in Python. The model fixes
  first-occurrence order and proves the list has no duplicates and the same
  members.
- The regular expression `\.gov$` also matches before a final newline,
  because Python's `$` matches there. `MatchesDomain` models that.

**Where the program's design notes and its code disagree, the model
follows the code.**

- The design notes say an academic block that is present but empty still
  scores and is tagged `academic`. The code tests
  `evidence.get('academic_evidence')`, which is false for an empty dict,
  so an empty block adds nothing (`AcademicTruthy`).
- The design notes call `categories` a de-duplicated set. The code appends
  `'academic'` for the academic block and extends with the web tags, which
  may hold `'academic'` again for an `.edu` source. The tag can then appear
  twice (`AcademicTagCanRepeat`).
- The design notes give the claim tuple as (text, type, evidence). The
  parser produces (type, text, evidence). See Findings.

## Model

| member | source | states |
|---|---|---|
| EvidenceValidator.ScoreAcademicEvidence | src/evidence_validator.py:93-104 | the academic score is between 0 and 5 |
| EvidenceValidator.AcademicScoreDecomposes | src/evidence_validator.py:93-104 | the academic score is odd exactly when the year (missing counts as 0) is at least 2020; halved, it counts how many of "citations > 50" and "influential citations > 10" hold |
| EvidenceValidator.AcademicScoreTakesEveryValue | src/evidence_validator.py:93-104 | every score from 0 to 5 is reached by some academic block, so the three tests are independent |
| EvidenceValidator.AcademicMissingKeysCountAsZero | src/evidence_validator.py:98-102 | a missing citation count, influential count or year scores exactly as the `.get` default 0 |
| EvidenceValidator.AcademicThresholdBoundaries | src/evidence_validator.py:98-103 | the thresholds are strict for citations (50 and 10 score nothing) and inclusive for the year (2020 scores, 2019 does not) |
| EvidenceValidator.ConfidenceChain | src/evidence_validator.py:144-150 | the confidence weight is 3 for "high confidence", otherwise 2 for "medium confidence", otherwise 1 for "low confidence", otherwise 0 |
| EvidenceValidator.SupportChain | src/evidence_validator.py:152-156 | the support weight is 2 for "strongly supports", otherwise 1 for "supports", otherwise 0 |
| EvidenceValidator.ScoreExpertValidation | src/evidence_validator.py:135-158 | the expert score is between 0 and 5, and a falsy answer (None or empty) scores 0 |
| EvidenceValidator.ConfidenceWeightCases | src/evidence_validator.py:145-150 | each confidence weight holds exactly when its phrase is present and no higher-priority phrase is |
| EvidenceValidator.HighConfidenceExcludesOthers | src/evidence_validator.py:145-150 | with "high confidence" present, the medium and low phrases are ignored: the score is 3 plus the support weight, so between 3 and 5 |
| EvidenceValidator.StronglySupportsWeighsTwo | src/evidence_validator.py:153-156 | "strongly supports" also contains "supports", yet the support weight is 2, not 3 |
| EvidenceValidator.ExpertScoreIgnoresCase | src/evidence_validator.py:141 | the expert score of a text equals that of its lower-cased form |
| EvidenceValidator.HighConfidenceStrongSupportIsMaximal | src/evidence_validator.py:145-156 | "high confidence" together with "strongly supports" gives the maximum score 5 |
| EvidenceValidator.PatternScore | src/evidence_validator.py:117-120 | after the first k source patterns, the domain score is between 0 and 0, 3, 5 or 6 |
| EvidenceValidator.ItemScore | src/evidence_validator.py:112-128 | one web item scores between 0 and 9 |
| EvidenceValidator.WebScore | src/evidence_validator.py:106-133 | the web score is between 0 and 9 per item |
| EvidenceValidator.WebScoreAppend | src/evidence_validator.py:112-128 | the web score is additive over concatenated item lists |
| EvidenceValidator.PatternTagsWeigh | src/evidence_validator.py:117-120 | the domain score equals the summed weights of the tags the domain loop appends |
| EvidenceValidator.ItemScoreIsTagWeight | src/evidence_validator.py:116-128 | an item's score equals the summed weights of the tags it contributes |
| EvidenceValidator.SourcePatternsIndependent | src/evidence_validator.py:117-120 | `.gov`, `.edu` and `.org` are tested independently, and each adds its weight when it matches |
| EvidenceValidator.ScoreSource | src/evidence_validator.py:117-120 | the domain loop adds the pattern score and appends the pattern tags |
| EvidenceValidator.ScoreWebItem | src/evidence_validator.py:112-128 | one pass of the web loop adds the item's score and appends its tags |
| EvidenceValidator.ScoreWebEvidence | src/evidence_validator.py:106-133 | the web scorer returns the web score and the de-duplicated web tags |
| EvidenceValidator.Strength | src/evidence_validator.py:70-91 | a record's strength is between 0 and 10 plus 9 per web item |
| EvidenceValidator.ScoreEvidence | src/evidence_validator.py:70-91 | scoring writes the strength and the scored categories into the same record and returns it |
| EvidenceValidator.AddAcademicBlock | src/evidence_validator.py:75-78 | a truthy academic block adds its score and appends `academic`; a falsy one changes nothing |
| EvidenceValidator.AddWebBlock | src/evidence_validator.py:80-83 | a non-empty web list adds the web score and extends the categories with the de-duplicated web tags |
| EvidenceValidator.AddExpertBlock | src/evidence_validator.py:85-89 | a truthy expert answer adds its score, and appends `expert_validated` only when that score is positive |
| EvidenceValidator.ScoringIsIdempotent | src/evidence_validator.py:72-73 | scoring a record twice leaves the same strength and the same categories, because each pass resets before it adds |
| EvidenceValidator.FalsyFieldsScoreNothing | src/evidence_validator.py:75-89 | a record with a falsy academic block, no web items and a falsy expert answer scores 0 with no categories |
| EvidenceValidator.CategoryTagsAndBlocks | src/evidence_validator.py:75-89 | a truthy academic block puts `academic` first; `expert_validated` is present exactly when the expert score is positive |
| EvidenceValidator.WebTagsAreWebCategories | src/evidence_validator.py:117-128 | the web scorer never produces `expert_validated` |
| EvidenceValidator.PatternTagsAreSourceCategories | src/evidence_validator.py:117-120 | the domain loop never produces `expert_validated` |
| EvidenceValidator.WebTagsCollectItemTags | src/evidence_validator.py:130-133 | every tag of every item reaches the web tags |
| EvidenceValidator.AcademicTagCanRepeat | src/evidence_validator.py:78-83 | with a truthy academic block and an `.edu` source, `academic` appears twice in the categories |
| EvidenceValidator.Kept | src/evidence_validator.py:60-63 | the filter keeps at most as many records as it is given |
| EvidenceValidator.ValidateAndRank | src/evidence_validator.py:48-68 | every record is scored in place; the result is the kept records sorted by strength, descending and stable, each carrying its strength |
| EvidenceValidator.ScoreAndFilter | src/evidence_validator.py:58-63 | every record is scored, and the result is the records whose strength is at least 3, in input order |
| EvidenceValidator.ScoreAndKeep | src/evidence_validator.py:61-63 | one loop pass scores the record and appends it exactly when its strength is at least 3 |
| EvidenceValidator.ScoreNext | src/evidence_validator.py:60-63 | one loop pass keeps the loop invariant: every record visited so far is scored, and the result so far is the filter of the visited prefix |
| EvidenceValidator.KeptMembers | src/evidence_validator.py:62-63 | every kept record is an input record with strength at least 3 |
| EvidenceValidator.KeptExactly | src/evidence_validator.py:60-63 | a record is kept as often as it occurs in the input when its strength is at least 3, and never otherwise |
| EvidenceValidator.RankedOrderAndStability | src/evidence_validator.py:66 | the ranked list is sorted descending; for each score, its records are the input's records with that score, in input order |
| EvidenceValidator.KeptWithKey | src/evidence_validator.py:60-63 | for each score of at least 3, the filter keeps exactly the input records with that score, in order |
| EvidenceValidator.StableTies | src/evidence_validator.py:66 | two distinct records with equal kept strength rank in their input order |
| EvidenceValidator.CategorizeEvidence | src/evidence_validator.py:160-176 | the buckets hold exactly the categories some record carries, and each bucket lists its records in rank order, once per tag occurrence |
| EvidenceValidator.FileRecord | src/evidence_validator.py:173-174 | filing a record appends it to each of its tags' buckets, once per occurrence, and creates missing buckets |
| EvidenceValidator.BucketAppend | src/evidence_validator.py:172-174 | the bucket of a concatenation is the concatenation of the buckets |
| EvidenceValidator.BucketCount | src/evidence_validator.py:172-174 | a bucket's size is the number of occurrences of its tag across the records |
| EvidenceValidator.BucketsTotal | src/evidence_validator.py:170-176 | summed over all six categories, the bucket sizes equal the total number of tags |
| EvidenceValidator.SumCountsTotal | src/evidence_validator.py:170-176 | the six per-category occurrence counts add up to the total number of tags |
| Ranking.SortDesc | src/evidence_validator.py:66 | the sort's result is sorted by key, descending, and is a permutation of its input |
| Ranking.SortDescStable | src/evidence_validator.py:66 | for each key, the sorted list keeps the input's records with that key in input order |
| Ranking.SortDescIsTheStableSort | src/evidence_validator.py:66 | any descending list that keeps each key's records in input order equals the sort's result |
| Seqs.DedupSpec | src/evidence_validator.py:132 | the de-duplicated tag list has no duplicates and the same members as the input |
| EvidenceModel.EvidenceRecord.constructor | src/pipeline_steps/step3_evidence_gather.py:46-53 | a new record holds the gathered fields, with score 0 and no categories |
| ClaimExtraction.ExtractClaimsFromResponse | src/pipeline_steps/step2_extract_claims.py:186-213 | the parser's result is the fold of the line step over the reply's lines, then the final flush |
| ClaimExtraction.ParseLines | src/pipeline_steps/step2_extract_claims.py:190-211 | the line loop and the final flush compute the fold |
| ClaimExtraction.ParseLine | src/pipeline_steps/step2_extract_claims.py:190-203 | one loop pass: strip the line, then start a claim, set the text, set the evidence, or ignore it |
| ClaimExtraction.FlushClaim | src/pipeline_steps/step2_extract_claims.py:193-198 | flushing a non-empty pending dict appends its tuple, or raises KeyError for `type`, `text` or `evidence`, in that order |
| ClaimExtraction.RunStep | src/pipeline_steps/step2_extract_claims.py:190-203 | the fold takes one step per line and stops at the first KeyError |
| ClaimExtraction.ExtractClaimsCombined | src/pipeline_steps/step2_extract_claims.py:215-249 | the combined extractor returns the parser's list unchanged |
| ClaimExtraction.RunUntypedFails | src/pipeline_steps/step2_extract_claims.py:193-201 | once the pending dict is non-empty without a type, parsing always ends in KeyError |
| ClaimExtraction.ParseCount | src/pipeline_steps/step2_extract_claims.py:186-213 | a successful parse yields exactly one claim per `CLAIM TYPE:` line |
| ClaimExtraction.FieldValueShape | src/pipeline_steps/step2_extract_claims.py:199-203 | a parsed field value is stripped and colon-free; a parsed type is also lower-case |
| ClaimExtraction.ParseShape | src/pipeline_steps/step2_extract_claims.py:186-213 | every parsed claim has stripped, colon-free fields and a lower-case type |
| ClaimExtraction.ParseEmpty | src/pipeline_steps/step2_extract_claims.py:187-213 | an empty reply parses to no claims |
| ClaimExtraction.PrefixesExclusive | src/pipeline_steps/step2_extract_claims.py:192-203 | a line can start with at most one of the three prefixes, so the branch order never matters |
| ClaimExtraction.TypeLineStep | src/pipeline_steps/step2_extract_claims.py:192-199 | a type line flushes the pending claim and starts a new one with the lower-cased type |
| ClaimExtraction.TextLineStep | src/pipeline_steps/step2_extract_claims.py:200-201 | a text line sets the pending claim's text |
| ClaimExtraction.EvidenceLineStep | src/pipeline_steps/step2_extract_claims.py:202-203 | an evidence line sets the pending claim's evidence |
| ClaimExtraction.OtherLineStep | src/pipeline_steps/step2_extract_claims.py:190-203 | a line with none of the prefixes changes nothing |
| ClaimExtraction.TextLineCut | src/pipeline_steps/step2_extract_claims.py:201 | a text containing a colon keeps only the part before it |
| ClaimExtraction.TextBeforeTypeRaises | src/pipeline_steps/step2_extract_claims.py:193-201 | a text line before any type line makes the next type line raise KeyError('type') |
| ClaimExtraction.LaterTextLineWins | src/pipeline_steps/step2_extract_claims.py:200-201 | of two text lines for one claim, the later one wins |
| ClaimExtraction.LaterEvidenceLineWins | src/pipeline_steps/step2_extract_claims.py:202-203 | of two evidence lines for one claim, the later one wins |
| ClaimExtraction.ParseRender | src/pipeline_steps/step2_extract_claims.py:170-213 | a reply in the requested three-line format parses back to exactly the claims it was rendered from |
| ClaimExtraction.ExtractClaimsByKeywords | src/pipeline_steps/step2_extract_claims.py:30-56 | the sentence loop computes the keyword claim list, with the first sentence as every claim's evidence |
| ClaimExtraction.KeywordEvidenceIsFirstSentence | src/pipeline_steps/step2_extract_claims.py:46-53 | every keyword claim's evidence is the document's first sentence, stripped |
| ClaimExtraction.KeywordClaimsSpec | src/pipeline_steps/step2_extract_claims.py:35-54 | there is one claim per matching sentence, in order: the k-th claim is the k-th matching sentence stripped, its class and the stripped evidence |
| ClaimExtraction.KeywordClaimsInOrder | src/pipeline_steps/step2_extract_claims.py:35-54 | the k-th claim comes from the k-th sentence some keyword matches |
| ClaimExtraction.MatchedMembers | src/pipeline_steps/step2_extract_claims.py:35-42 | the matched sentences are input sentences that the merit or importance keywords match |
| ClaimExtraction.KeywordClaimsAppend | src/pipeline_steps/step2_extract_claims.py:35-54 | the classifier works sentence by sentence: its result over concatenated sentences is the concatenation |
| ClaimExtraction.MeritWins | src/pipeline_steps/step2_extract_claims.py:39-43 | a sentence is `merit` exactly when it has a merit keyword, and `importance` exactly when it has an importance keyword and no merit keyword |
| ClaimExtraction.KeywordsMatchSubstrings | src/pipeline_steps/step2_extract_claims.py:36-39 | keywords match case-insensitively inside words: "Improves" is a merit claim |
| Gathering.ReferenceIgnoresCase | src/pipeline_steps/step3_evidence_gather.py:131-137 | the academic-reference test gives the same answer for a text and its lower-cased form |
| Gathering.ReferenceInLargerText | src/pipeline_steps/step3_evidence_gather.py:137 | a text containing a text with a reference has a reference too |
| Gathering.ShortTextHasNoReference | src/pipeline_steps/step3_evidence_gather.py:133-137 | a text shorter than the shortest indicator, "doi", never has a reference |
| Gathering.IndicatorsMatchInsideWords | src/pipeline_steps/step3_evidence_gather.py:137 | indicators match inside words: any text holding "paper" anywhere, "Newspaper" included, counts as a reference |
| Gathering.Tagged | src/pipeline_steps/step3_evidence_gather.py:99-105 | a helper returns one item per hit, each tagged with its provider |
| Gathering.TagHits | src/pipeline_steps/step3_evidence_gather.py:99-105 | the result loop copies each hit's title, snippet and url into a tagged item, in order; a failed request gives [] |
| Gathering.SearchYouDotCom | src/pipeline_steps/step3_evidence_gather.py:88-109 | the you.com helper tags its hits `you.com` |
| Gathering.SearchSerp | src/pipeline_steps/step3_evidence_gather.py:111-129 | the SerpAPI helper tags its hits `serp` and takes each url from the hit's link |
| Gathering.SearchPerplexity | src/pipeline_steps/step3_evidence_gather.py:69-86 | the disabled perplexity helper tags its hits `perplexity` |
| Gathering.ProviderPatterns | src/evidence_validator.py:117-120 | a provider tag never matches a source pattern, so it adds no domain score and no domain tag |
| Gathering.ProviderItemScore | src/evidence_validator.py:113-128 | a gathered web item scores from its snippet alone, and its tags are only `research_based` or `recognition` |
| Gathering.ProviderWebTags | src/evidence_validator.py:117-128 | over gathered web evidence, scoring attaches only `research_based` or `recognition` |
| Gathering.GatherEvidenceForClaim | src/pipeline_steps/step3_evidence_gather.py:35-67 | the new record holds the gathered fields for the claim and is unscored |
| Gathering.GatherAsWritten | src/pipeline_steps/step3_evidence_gather.py:56 | as written, gathering raises NameError for `search_perplexity` and never returns the intended record |
| Gathering.GatherKeepsClaim | src/pipeline_steps/step3_evidence_gather.py:45-62 | the record keeps the tuple's positions; it has the academic lookup's answer exactly when the text has an academic reference |
| Gathering.GatheredWeb | src/pipeline_steps/step3_evidence_gather.py:56-58 | the web evidence is every provider's hits in helper order, each carrying a provider tag |
| Gathering.GatheredWebScoresNoSource | src/pipeline_steps/step3_evidence_gather.py:56-58 | scoring a gathered record's web part never attaches `government`, `academic` or `organization` |
| Gathering.GatherAll | src/pipeline_steps/step3_evidence_gather.py:199-214 | there is one gathered record per claim |
| Gathering.GatherEvidenceAllClaims | src/pipeline_steps/step3_evidence_gather.py:199-214 | one new, unscored record per claim, in claim order, each holding that claim's gathered fields |
| Gathering.PromptTypesAreNotAcademic | src/pipeline_steps/step2_extract_claims.py:170 | none of the requested type words holds an academic indicator |
| Gathering.ParsedTuplesSwapTextAndType | src/pipeline_steps/step3_evidence_gather.py:45 | parsed tuples reach this step with text and type swapped, so the academic lookup follows the type word's reference test; for the requested type words (merit, importance, background) it never happens |
| Gathering.DocstringOrder | src/pipeline_steps/step3_evidence_gather.py:40 | reordering puts the claim text first and the type second |
| Gathering.GatherEvidenceForParsedClaims | src/pipeline_steps/step3_evidence_gather.py:199-214 | gathering over reordered parsed tuples gives one new record per parsed claim, in order |
| Gathering.ReorderedGathersText | src/pipeline_steps/step3_evidence_gather.py:45-62 | after reordering, each record searches on the claim's text, and its academic part follows that text's reference test |
| ReportSummary.GroupClaimsByType | src/pipeline_steps/step5_report_generator.py:96-101 | the keys are the distinct types in first-appearance order; each key maps to its claims' (text, explanation) pairs in order |
| ReportSummary.GroupSize | src/pipeline_steps/step5_report_generator.py:98-101 | a group holds as many pairs as there are claims of its type |
| ReportSummary.GroupingKeepsEveryClaim | src/pipeline_steps/step5_report_generator.py:96-101 | the group sizes add up to the number of claims |
| ReportSummary.SupportOf | src/pipeline_steps/step5_report_generator.py:110-111 | a group has at most one evidence entry |
| ReportSummary.BuildEvidenceSummary | src/pipeline_steps/step5_report_generator.py:103-111 | the nested loops produce the summary lines of every group, in key order |
| ReportSummary.AppendClaimLines | src/pipeline_steps/step5_report_generator.py:107-111 | the inner loop appends a "Claim:" and a "Context:" line per claim, each followed by the group's evidence line when it has one |
| ReportSummary.SummarizeClaims | src/pipeline_steps/step5_report_generator.py:96-111 | grouping then summarising gives the summary of the grouping of the claims |
| ReportSummary.ClaimLinesCounts | src/pipeline_steps/step5_report_generator.py:107-111 | a group gives one "Claim:" and one "Context:" line per claim, and one evidence line per claim when it has evidence |
| ReportSummary.SummaryCounts | src/pipeline_steps/step5_report_generator.py:105-111 | the first n groups give n "Claim Type:" lines, one "Claim:" and one "Context:" line per claim, and one evidence line per claim of a group with an index below the evidence list's length |
| ReportSummary.SummaryOfClaims | src/pipeline_steps/step5_report_generator.py:96-111 | for a claim list, one "Claim Type:" line per distinct type, one "Claim:" and "Context:" line per claim, and with enough evidence one evidence line per claim |
| ReportSummary.NoEvidenceNoSupport | src/pipeline_steps/step5_report_generator.py:110-111 | with an empty evidence list, the summary lines hold no "Supporting Evidence:" line |
| ReportSummary.ExtraEvidenceUnused | src/pipeline_steps/step5_report_generator.py:110-111 | evidence at an index at or beyond the number of groups never affects the summary |
| ReportTemplate.Show | src/pipeline_steps/step5_report_generator.py:79 | a string shows as itself in an f-string, and None as "None" |
| ReportTemplate.AppendSection | src/pipeline_steps/step5_report_generator.py:45-80 | an evidence loop appends its items' lines in input order, or stops at the first KeyError |
| ReportTemplate.GenerateReportTemplate | src/pipeline_steps/step5_report_generator.py:26-82 | the template returns the fixed sections and the four evidence loops joined by blank lines, or the first exception |
| ReportTemplate.FillTemplate | src/pipeline_steps/step5_report_generator.py:28-82 | given the fixed paragraphs, the template places the opening, the four loops in order and the closing paragraphs, then joins them with blank lines, or returns the first exception |
| ReportTemplate.LoopBody | src/pipeline_steps/step5_report_generator.py:45-80 | one loop pass reads the category (KeyError when missing), then gives the item's lines for that loop |
| ReportTemplate.FrameNamesApplicant | src/pipeline_steps/step5_report_generator.py:30-65 | the section heading and the 2.2 heading start with "Dr." and the applicant's name; the 2.1 heading and the merit summary start with the field |
| ReportTemplate.SectionAppend | src/pipeline_steps/step5_report_generator.py:45-80 | a loop over two runs of items is the loop over the first, then the second |
| ReportTemplate.OtherCategoriesIgnored | src/pipeline_steps/step5_report_generator.py:45-80 | an item with any other category (or a None category) leaves the report exactly as it is without it |
| ReportTemplate.FirstFailure | src/pipeline_steps/step5_report_generator.py:45-80 | a loop raises what its first failing item raises |
| ReportTemplate.MissingCategoryRaises | src/pipeline_steps/step5_report_generator.py:45-47 | an item without a category raises KeyError('category') in the first loop, unless an earlier `field_impact` item lacked its content |
| ReportTemplate.ReportSucceedsIff | src/pipeline_steps/step5_report_generator.py:26-82 | the template returns a report exactly when every item has a category, every placed non-expert item has string content, and every expert item has content and source |
| ReportTemplate.ReportOkIffLoopsFine | src/pipeline_steps/step5_report_generator.py:82 | the join succeeds exactly when all four loops succeed with only strings |
| ReportTemplate.ExpertWithoutSourceRaises | src/pipeline_steps/step5_report_generator.py:76-80 | an expert item without a source raises KeyError('source') when nothing before it raises: every item has a category, every item a loop places has content, and no earlier expert item lacks content or source |
| ReportTemplate.SourceSectionIffTruthy | src/pipeline_steps/step5_report_generator.py:45-70 | content comes first; a "(source)" section follows exactly when the loop is not the benefits loop and the source is truthy |
| ReportTemplate.ExpertBulletEmbedsSource | src/pipeline_steps/step5_report_generator.py:76-80 | an expert bullet opens with the quoted content and always ends with the source in parentheses |
| ReportTemplate.ReportOpensWithHeadings | src/pipeline_steps/step5_report_generator.py:30-42 | the report starts with the "Section.2" heading, the overview and the "2.1" heading, separated by blank lines |
| ReportTemplate.ReportEndsWithExpertIntro | src/pipeline_steps/step5_report_generator.py:72-82 | without expert testimony, the report ends with the experts' introduction |

## Left out

Outside the model, each with the reason:

- **Network and model calls.** The search services, the scholarly lookup
  (`validate_academic_claim`), the expert model (`get_expert_validation`)
  and the claim-extraction and report calls to the language model are all
  network I/O. Their answers are inputs. The prompt texts are not modelled,
  nor is the empty result `extract_claims_anthropic` returns when the
  client library is not installed.
- **Service nondeterminism.** A service's answer is a function of the query
  text. Two identical queries therefore get identical answers.
- **Sentence segmentation.** spaCy's sentence splitting is outside the
  model. The sentences are an input to the keyword classifier.
  - `doc.sents` builds a new generator on every access, so
    `next(doc.sents, None)` always returns the document's first sentence.
    Every keyword claim therefore carries that sentence, stripped, as its
    evidence, or "" when there is no sentence (`FirstSentence`).
  - `extract_claims_spacy` never imports spaCy (the import is commented out).
- **Text.** `lower` is modelled on ASCII letters only. Python's full Unicode
  case mapping is not. `strip` removes the same characters as Python's
  `str.strip()`: the ASCII whitespace and the Unicode spaces above ASCII.
- **Bucket order.** `EvidenceValidator.CategorizeEvidence` returns a map
  from category to bucket. The order in which `dict(categories)` lists its
  keys (first filing) is not modelled. Each bucket's order is modelled.
- **Web-item snippets.** `EvidenceValidator.ScoreWebEvidence` requires
  every snippet to be a string. A `None` snippet makes `.lower()` raise
  `AttributeError`, which is not modelled.
- **None values in the academic block.** The scholarly lookup always writes
  every key, copying the paper's year, citation count and influential
  citation count, any of which can be `None`. A `None` value makes the
  `>` or `>=` comparison raise `TypeError`, which is not modelled. The
  model's `None` for these three fields means a missing key, which `.get`
  reads as 0.
- **Applicant fields.** `ReportTemplate.ApplicantInfo` is a record with all
  four fields present. A missing applicant key, which would raise
  `KeyError` before any evidence is read, is not modelled.
- **Template values.** Evidence values are strings, `None` or missing.
  Other Python types are not modelled.
- **Unreachable and duplicate code.**
  - The dead `else` branch of `generate_evidence_report` is not modelled.
    `use_anthropic` is always true there, and the branch names an
    undefined `applicant_info`.
  - `src/report_generator.py` and `src/evidence_gather.py` repeat the
    step-5 template and step-3 gathering. They are not part of this model.
  - PDF output (`src/pdf_processor.py`) and `src/main.py` are not part of
    this model.
- **Record construction.** Gathering builds a dict field by field. The model
  builds the record once from locals. It holds the gathered fields, plus a
  strength of 0 and no categories, which the dict lacks. `score_evidence`
  sets both of these before anything reads them.
- **Ranking.** Python's in-place `list.sort` is modelled as a functional
  stable sort on sequences of record references.
  - The model proves it is the unique stable descending order.
  - The source's in-place reordering of the list object is not modelled.

## Findings

| source | as written | input that shows it | evidently intended | confidence | as-written member | corrected member |
|---|---|---|---|---|---|---|
| src/pipeline_steps/step3_evidence_gather.py:45 | the parser's tuples are `(type, text, evidence)`, but gathering unpacks `(claim_text, claim_type, initial_evidence)` | a reply `CLAIM TYPE: merit` / `CLAIM TEXT: Published a paper` / `EVIDENCE: x`: the record's claim text is `merit`, and the searches run on `merit`. No academic lookup happens, though the text says "paper" | gathering reads the claim text from the tuple's second position | high; not executed | Gathering.ParsedTuplesSwapTextAndType | Gathering.ReorderedGathersText |
| src/pipeline_steps/step3_evidence_gather.py:56 | gathering calls `search_perplexity`, whose definition (lines 69-86) is commented out | any claim: `NameError: name 'search_perplexity' is not defined` before any record is built | the three helpers extend the web evidence in turn; a disabled perplexity service contributes no hits | high; not executed | Gathering.GatherAsWritten | Gathering.GatherEvidenceForClaim |
