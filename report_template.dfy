/**
 * The template report of the report step: a fixed sequence of headings and
 * paragraphs with the validated evidence slotted in by category, joined
 * with blank lines. Evidence items are Python dicts here, so a key may be
 * missing (a `KeyError` when it is indexed) and a value may be `None` (a
 * `TypeError` when `join` meets it). Lines cited are in
 * src/pipeline_steps/step5_report_generator.py.
 */
module ReportTemplate {
  import opened Wrappers
  import opened Text

  /** A dict entry: the key is missing, maps to `None`, or maps to a string. */
  datatype Value = Absent | Null | Str(s: string)

  /** Python truthiness of `evidence.get(key)`: a non-empty string. */
  predicate Truthy(v: Value) {
    v.Str? && v.s != ""
  }

  /** How an f-string shows a present value: `None` prints as "None". */
  function Show(v: Value): (r: string)
    requires v != Absent
    ensures v.Str? ==> r == v.s
    ensures v.Null? ==> r == "None"
  {
    if v.Null? then "None" else v.s
  }

  /** One validated evidence dict, by the three keys the template reads. */
  datatype Item = Item(category: Value, content: Value, source: Value)

  /** The applicant dict, with the four keys the template reads. */
  datatype ApplicantInfo = ApplicantInfo(name: string, field: string, endeavorDescription: string, applications: seq<string>)

  /** The exceptions the template can raise: a `KeyError` on a missing key, a `TypeError` when `join` meets `None`. */
  datatype Raised = MissingKey(key: string) | JoinTypeError

  /** The four evidence loops, in the order the template runs them. */
  datatype Loop = FieldImpactLoop | MarketLoop | BenefitsLoop | ExpertLoop

  /** The category test of each loop (lines 46, 53, 69, 77). */
  predicate Selected(l: Loop, category: Value) {
    match l
    case FieldImpactLoop => category == Str("field_impact")
    case MarketLoop => category == Str("market_data") || category == Str("government_recognition")
    case BenefitsLoop => category == Str("specific_benefits")
    case ExpertLoop => category == Str("expert_testimony")
  }

  /** The bullet of one expert testimony (line 79). */
  function Bullet(content: Value, source: Value): string
    requires content != Absent && source != Absent
  {
    "• \"" + Show(content) + "\" (" + Show(source) + ")"
  }

  /** What one loop appends for one item, or the exception it raises. */
  function ItemLines(l: Loop, item: Item): Result<seq<Value>, Raised> {
    if item.category == Absent then Err(MissingKey("category"))
    else if !Selected(l, item.category) then Ok([])
    else if item.content == Absent then Err(MissingKey("content"))
    else if l == ExpertLoop then
      if item.source == Absent then Err(MissingKey("source")) else Ok([Str(Bullet(item.content, item.source))])
    else if l != BenefitsLoop && Truthy(item.source) then Ok([item.content, Str("(" + item.source.s + ")")])
    else Ok([item.content])
  }

  /** What one loop appends over the items, or the first exception it raises. */
  function Section(l: Loop, items: seq<Item>): Result<seq<Value>, Raised> {
    if items == [] then Ok([])
    else
      match Section(l, items[..|items| - 1])
      case Err(e) => Err(e)
      case Ok(before) =>
        match ItemLines(l, items[|items| - 1])
        case Err(e) => Err(e)
        case Ok(lines) => Ok(before + lines)
  }

  // ---------------------------------------------------------------------
  // The fixed paragraphs (lines 31-42, 59-65, 73-75)

  function Heading(a: ApplicantInfo): string {
    "Section.2 Dr. " + a.name + "'s proposed endeavor has both substantial merit and national importance for the United States"
  }

  function Overview(a: ApplicantInfo): string {
    "Dr. " + a.name + "'s proposed endeavor is to develop state-of-the-art " + a.field + " " +
    "for " + a.endeavorDescription + ". Among other applications, Dr. " + a.name + "'s work " +
    "is relevant to " + Join(", ", a.applications) + ", which is of substantial merit and great importance " +
    "to the United States."
  }

  function MeritHeading(a: ApplicantInfo): string {
    "2.1 " + a.field + " is an area of substantial merit"
  }

  function MeritSummary(a: ApplicantInfo): string {
    "In summary, " + a.field + " is an important technology and has broad impact in many industries. " +
    "It is of substantial merit to the United States."
  }

  function BenefitHeading(a: ApplicantInfo): string {
    "2.2 Dr. " + a.name + "'s work will be beneficial to the United States"
  }

  const ExpertIntro := "Fellow experts in the field have provided further detail on the importance of this endeavor:"

  /**
   * The six fixed paragraphs of the template. The report is assembled from
   * any such frame; `FrameOf` fills in the template's own wording.
   */
  datatype Frame = Frame(heading: string, overview: string, meritHeading: string,
                         meritSummary: string, benefitHeading: string, expertIntro: string)

  function FrameOf(a: ApplicantInfo): Frame {
    Frame(Heading(a), Overview(a), MeritHeading(a), MeritSummary(a), BenefitHeading(a), ExpertIntro)
  }

  /** The headings and the merit summary name the applicant and the field first. */
  lemma FrameNamesApplicant(a: ApplicantInfo)
    ensures StartsWith(FrameOf(a).heading, "Section.2 Dr. " + a.name)
    ensures StartsWith(FrameOf(a).meritHeading, "2.1 " + a.field)
    ensures StartsWith(FrameOf(a).meritSummary, "In summary, " + a.field)
    ensures StartsWith(FrameOf(a).benefitHeading, "2.2 Dr. " + a.name)
  {
    HeadingNamesApplicant(a);
    MeritHeadingNamesField(a);
    MeritSummaryNamesField(a);
    BenefitHeadingNamesApplicant(a);
  }

  lemma HeadingNamesApplicant(a: ApplicantInfo)
    ensures StartsWith(Heading(a), "Section.2 Dr. " + a.name)
  {
    PrefixStartsWith("Section.2 Dr. " + a.name, "'s proposed endeavor has both substantial merit and national importance for the United States");
  }

  lemma MeritHeadingNamesField(a: ApplicantInfo)
    ensures StartsWith(MeritHeading(a), "2.1 " + a.field)
  {
    PrefixStartsWith("2.1 " + a.field, " is an area of substantial merit");
  }

  lemma MeritSummaryNamesField(a: ApplicantInfo)
    ensures StartsWith(MeritSummary(a), "In summary, " + a.field)
  {
    PrefixStartsWith("In summary, " + a.field, " is an important technology and has broad impact in many industries. " +
      "It is of substantial merit to the United States.");
  }

  lemma BenefitHeadingNamesApplicant(a: ApplicantInfo)
    ensures StartsWith(BenefitHeading(a), "2.2 Dr. " + a.name)
  {
    PrefixStartsWith("2.2 Dr. " + a.name, "'s work will be beneficial to the United States");
  }

  lemma PrefixStartsWith(p: string, q: string)
    ensures StartsWith(p + q, p)
  {
    assert (p + q)[..|p|] == p;
  }

  /** The opening three sections, before any evidence. */
  function Opening(f: Frame): seq<Value> {
    [Str(f.heading), Str(f.overview), Str(f.meritHeading)]
  }

  /** `report_sections` once all four loops have run, or the first exception. */
  function Sections(f: Frame, items: seq<Item>): Result<seq<Value>, Raised> {
    match Section(FieldImpactLoop, items)
    case Err(e) => Err(e)
    case Ok(impact) =>
      match Section(MarketLoop, items)
      case Err(e) => Err(e)
      case Ok(market) =>
        match Section(BenefitsLoop, items)
        case Err(e) => Err(e)
        case Ok(benefits) =>
          match Section(ExpertLoop, items)
          case Err(e) => Err(e)
          case Ok(experts) =>
            Ok(Opening(f) + impact + market + [Str(f.meritSummary), Str(f.benefitHeading)] +
               benefits + [Str(f.expertIntro)] + experts)
  }

  /** Every section is a string, as `str.join` demands. */
  predicate AllText(vs: seq<Value>) {
    forall v :: v in vs ==> v.Str?
  }

  function Texts(vs: seq<Value>): (ts: seq<string>)
    requires AllText(vs)
    ensures |ts| == |vs| && forall k :: 0 <= k < |vs| ==> vs[k] == Str(ts[k])
  {
    if vs == [] then [] else [vs[0].s] + Texts(vs[1..])
  }

  /** The template's result: the sections joined by blank lines, or the exception raised. */
  function Report(f: Frame, items: seq<Item>): Result<string, Raised> {
    match Sections(f, items)
    case Err(e) => Err(e)
    case Ok(vs) => if AllText(vs) then Ok(Join("\n\n", Texts(vs))) else Err(JoinTypeError)
  }

  // ---------------------------------------------------------------------
  // The template itself (lines 26-82)

  /** One step of a loop: the item's lines are appended, or its exception ends the loop. */
  lemma SectionStep(l: Loop, items: seq<Item>, i: nat)
    requires i < |items|
    ensures Section(l, items[..i + 1]) == Extend(Section(l, items[..i]), ItemLines(l, items[i]))
  {
    assert items[..i + 1][..i] == items[..i];
  }

  /** Once a loop has raised, the later items change nothing. */
  lemma {:induction false} SectionErrStays(l: Loop, items: seq<Item>, k: nat)
    requires k <= |items| && Section(l, items[..k]).Err?
    ensures Section(l, items) == Section(l, items[..k])
    decreases |items| - k
  {
    if k == |items| {
      assert items[..k] == items;
    } else {
      SectionStep(l, items, k);
      SectionErrStays(l, items, k + 1);
    }
  }

  /** The outcome of appending a loop's lines to `sections`. */
  function Appended(sections: seq<Value>, r: Result<seq<Value>, Raised>): Result<seq<Value>, Raised> {
    match r
    case Err(e) => Err(e)
    case Ok(lines) => Ok(sections + lines)
  }

  /**
   * One of the four evidence loops (lines 45-49, 52-56, 68-70, 76-80): it
   * appends to `sections` what the loop appends, or stops at the first
   * exception.
   */
  method AppendSection(l: Loop, items: seq<Item>, sections: seq<Value>) returns (r: Result<seq<Value>, Raised>)
    ensures r == Appended(sections, Section(l, items))
  {
    var out := sections;
    assert items[..0] == [];
    AppendedNone(sections);
    for i := 0 to |items|
      invariant Appended(sections, Section(l, items[..i])) == Ok(out)
    {
      SectionStep(l, items, i);
      ExtendAppended(sections, Section(l, items[..i]), ItemLines(l, items[i]));
      var lines := LoopBody(l, items[i]);
      if lines.Err? {
        SectionErrStays(l, items, i + 1);
        return Err(lines.error);
      }
      out := out + lines.value;
    }
    assert items[..|items|] == items;
    r := Ok(out);
  }

  /** The body of an evidence loop for one item: the sections it appends, or the `KeyError` it raises. */
  method LoopBody(l: Loop, e: Item) returns (r: Result<seq<Value>, Raised>)
    ensures r == ItemLines(l, e)
  {
    if e.category == Absent {
      return Err(MissingKey("category"));
    }
    var lines: seq<Value> := [];
    if Selected(l, e.category) {
      if e.content == Absent {
        return Err(MissingKey("content"));
      }
      if l == ExpertLoop {
        if e.source == Absent {
          return Err(MissingKey("source"));
        }
        lines := [Str(Bullet(e.content, e.source))];
      } else {
        lines := [e.content];
        if l != BenefitsLoop && Truthy(e.source) {
          lines := lines + [Str("(" + e.source.s + ")")];
          assert lines == [e.content, Str("(" + e.source.s + ")")];
        }
      }
    }
    r := Ok(lines);
  }

  /** `_generate_report_template`: the template's own paragraphs, the four loops and the join (lines 26-82). */
  method GenerateReportTemplate(a: ApplicantInfo, items: seq<Item>) returns (r: Result<string, Raised>)
    ensures r == Report(FrameOf(a), items)
  {
    r := FillTemplate(FrameOf(a), items);
  }

  /** The template around the paragraphs of `f`: the fixed sections and the four loops, then the join. */
  method FillTemplate(f: Frame, items: seq<Item>) returns (r: Result<string, Raised>)
    ensures r == Report(f, items)
  {
    var sections := Opening(f);
    var step := AppendSection(FieldImpactLoop, items, sections);
    if step.Err? {
      return Err(step.error);
    }
    sections := step.value;
    step := AppendSection(MarketLoop, items, sections);
    if step.Err? {
      return Err(step.error);
    }
    sections := step.value + [Str(f.meritSummary), Str(f.benefitHeading)];
    step := AppendSection(BenefitsLoop, items, sections);
    if step.Err? {
      return Err(step.error);
    }
    sections := step.value + [Str(f.expertIntro)];
    step := AppendSection(ExpertLoop, items, sections);
    if step.Err? {
      return Err(step.error);
    }
    sections := step.value;
    assert sections == Sections(f, items).value;
    if !AllText(sections) {
      return Err(JoinTypeError);
    }
    r := Ok(Join("\n\n", Texts(sections)));
  }

  // ---------------------------------------------------------------------
  // What the template promises

  /** A loop over two runs of items is the loop over the first, then over the second. */
  lemma {:induction false} SectionAppend(l: Loop, xs: seq<Item>, ys: seq<Item>)
    ensures Section(l, xs + ys) ==
      if Section(l, xs).Err? then Section(l, xs) else Appended(Section(l, xs).value, Section(l, ys))
    decreases |ys|
  {
    if ys == [] {
      assert xs + ys == xs;
      assert Section(l, ys) == Ok([]);
      if Section(l, xs).Ok? {
        AppendedNone(Section(l, xs).value);
      }
    } else {
      var init, x := ys[..|ys| - 1], ys[|ys| - 1];
      assert xs + ys == (xs + init) + [x];
      assert init + [x] == ys;
      SectionAppend(l, xs, init);
      SectionSnoc(l, xs + init, x);
      SectionSnoc(l, init, x);
      if Section(l, xs).Ok? {
        ExtendAppended(Section(l, xs).value, Section(l, init), ItemLines(l, x));
      }
    }
  }

  /** The loop so far, then one more item. */
  function Extend(r: Result<seq<Value>, Raised>, step: Result<seq<Value>, Raised>): Result<seq<Value>, Raised> {
    match r
    case Err(e) => Err(e)
    case Ok(before) => Appended(before, step)
  }

  lemma SectionSnoc(l: Loop, zs: seq<Item>, x: Item)
    ensures Section(l, zs + [x]) == Extend(Section(l, zs), ItemLines(l, x))
  {
    assert (zs + [x])[..|zs|] == zs;
  }

  lemma ExtendAppended(v: seq<Value>, r: Result<seq<Value>, Raised>, step: Result<seq<Value>, Raised>)
    ensures Extend(Appended(v, r), step) == Appended(v, Extend(r, step))
  {
    if r.Ok? && step.Ok? {
      assert v + r.value + step.value == v + (r.value + step.value);
    }
  }

  lemma AppendedNone(v: seq<Value>)
    ensures Appended(v, Ok([])) == Ok(v)
  {
    assert v + [] == v;
  }

  /** The five categories the template places. */
  const PlacedCategories := ["field_impact", "market_data", "government_recognition", "specific_benefits", "expert_testimony"]

  /** An item whose category is present but none of the five is skipped by every loop. */
  predicate Unplaced(item: Item) {
    item.category == Null || (item.category.Str? && item.category.s !in PlacedCategories)
  }

  lemma SectionSkips(l: Loop, xs: seq<Item>, item: Item, ys: seq<Item>)
    requires Unplaced(item)
    ensures Section(l, xs + [item] + ys) == Section(l, xs + ys)
  {
    assert item.category != Str("field_impact") && item.category != Str("market_data");
    assert item.category != Str("government_recognition") && item.category != Str("specific_benefits");
    assert item.category != Str("expert_testimony");
    assert ItemLines(l, item) == Ok([]);
    assert Section(l, [item]) == Ok([]) by {
      var none: seq<Value> := [];
      assert [item][..|[item]| - 1] == [];
      assert none + none == none;
    }
    SectionAppend(l, xs, [item]);
    if Section(l, xs).Ok? {
      assert Section(l, xs).value + [] == Section(l, xs).value;
    }
    SectionAppend(l, xs + [item], ys);
    SectionAppend(l, xs, ys);
  }

  /** Evidence of any other category leaves the report exactly as it is without it. */
  lemma OtherCategoriesIgnored(f: Frame, xs: seq<Item>, item: Item, ys: seq<Item>)
    requires Unplaced(item)
    ensures Report(f, xs + [item] + ys) == Report(f, xs + ys)
  {
    SectionSkips(FieldImpactLoop, xs, item, ys);
    SectionSkips(MarketLoop, xs, item, ys);
    SectionSkips(BenefitsLoop, xs, item, ys);
    SectionSkips(ExpertLoop, xs, item, ys);
  }

  /** Every item a loop meets before `k` passes it. */
  lemma {:induction false} SectionPrefixOk(l: Loop, items: seq<Item>, k: nat)
    requires k <= |items|
    requires forall j :: 0 <= j < k ==> ItemLines(l, items[j]).Ok?
    ensures Section(l, items[..k]).Ok?
  {
    if k > 0 {
      SectionPrefixOk(l, items, k - 1);
      SectionStep(l, items, k - 1);
    }
  }

  /** A loop raises what its first failing item raises. */
  lemma FirstFailure(l: Loop, items: seq<Item>, k: nat)
    requires k < |items|
    requires forall j :: 0 <= j < k ==> ItemLines(l, items[j]).Ok?
    requires ItemLines(l, items[k]).Err?
    ensures Section(l, items) == ItemLines(l, items[k])
  {
    SectionPrefixOk(l, items, k);
    SectionStep(l, items, k);
    SectionErrStays(l, items, k + 1);
  }

  /**
   * An item without a category raises `KeyError('category')` in the first
   * loop, unless an earlier `field_impact` item already lacked its content.
   */
  lemma MissingCategoryRaises(f: Frame, items: seq<Item>, k: nat)
    requires k < |items| && items[k].category == Absent
    requires forall j :: 0 <= j < k ==>
      items[j].category != Absent && (items[j].category == Str("field_impact") ==> items[j].content != Absent)
    ensures Report(f, items) == Err(MissingKey("category"))
  {
    FirstFailure(FieldImpactLoop, items, k);
  }

  /** What passing a loop means for one item. */
  predicate ItemFine(l: Loop, item: Item) {
    ItemLines(l, item).Ok? && AllText(ItemLines(l, item).value)
  }

  /**
   * An item the template can place: it has a category, a placed non-expert
   * item has string content, and an expert item has content and source
   * (either may be `None`, which the bullet prints as "None").
   */
  predicate WellFormed(item: Item) {
    item.category != Absent &&
    (item.category in [Str("field_impact"), Str("market_data"), Str("government_recognition"), Str("specific_benefits")] ==>
       item.content.Str?) &&
    (item.category == Str("expert_testimony") ==> item.content != Absent && item.source != Absent)
  }

  lemma WellFormedIsFine(item: Item)
    ensures WellFormed(item) <==>
      ItemFine(FieldImpactLoop, item) && ItemFine(MarketLoop, item) &&
      ItemFine(BenefitsLoop, item) && ItemFine(ExpertLoop, item)
  {
  }

  /** A loop passes and yields only strings exactly when every item passes it. */
  lemma {:induction false} SectionFine(l: Loop, items: seq<Item>)
    ensures (Section(l, items).Ok? && AllText(Section(l, items).value)) <==>
      forall k :: 0 <= k < |items| ==> ItemFine(l, items[k])
  {
    if items != [] {
      var init := items[..|items| - 1];
      SectionFine(l, init);
      assert forall k :: 0 <= k < |init| ==> init[k] == items[k];
    }
  }

  /** All of `report_sections` is text exactly when each loop's part is. */
  lemma ReportOkIffLoopsFine(f: Frame, items: seq<Item>)
    ensures Report(f, items).Ok? <==>
      (Section(FieldImpactLoop, items).Ok? && AllText(Section(FieldImpactLoop, items).value)) &&
      (Section(MarketLoop, items).Ok? && AllText(Section(MarketLoop, items).value)) &&
      (Section(BenefitsLoop, items).Ok? && AllText(Section(BenefitsLoop, items).value)) &&
      (Section(ExpertLoop, items).Ok? && AllText(Section(ExpertLoop, items).value))
  {
    if Sections(f, items).Ok? {
      var s1, s2 := Section(FieldImpactLoop, items).value, Section(MarketLoop, items).value;
      var s3, s4 := Section(BenefitsLoop, items).value, Section(ExpertLoop, items).value;
      var vs := Sections(f, items).value;
      assert vs == Opening(f) + s1 + s2 + [Str(f.meritSummary), Str(f.benefitHeading)] + s3 + [Str(f.expertIntro)] + s4;
      assert AllText(vs) <==> AllText(s1) && AllText(s2) && AllText(s3) && AllText(s4);
    }
  }

  /**
   * The template returns a report exactly when every evidence item is
   * well formed; otherwise it raises.
   */
  lemma ReportSucceedsIff(f: Frame, items: seq<Item>)
    ensures Report(f, items).Ok? <==> forall k :: 0 <= k < |items| ==> WellFormed(items[k])
  {
    ReportOkIffLoopsFine(f, items);
    SectionFine(FieldImpactLoop, items);
    SectionFine(MarketLoop, items);
    SectionFine(BenefitsLoop, items);
    SectionFine(ExpertLoop, items);
    forall k | 0 <= k < |items|
      ensures WellFormed(items[k]) <==>
        ItemFine(FieldImpactLoop, items[k]) && ItemFine(MarketLoop, items[k]) &&
        ItemFine(BenefitsLoop, items[k]) && ItemFine(ExpertLoop, items[k])
    {
      WellFormedIsFine(items[k]);
    }
  }

  /**
   * An expert item without a source raises `KeyError('source')` when the
   * loops before it cannot raise (every item has a category, and every item
   * one of them places has content) and no earlier expert item raises.
   * Items no loop places may lack content.
   */
  lemma ExpertWithoutSourceRaises(f: Frame, items: seq<Item>, k: nat)
    requires k < |items|
    requires items[k].category == Str("expert_testimony") && items[k].content != Absent && items[k].source == Absent
    requires forall j :: 0 <= j < |items| ==> items[j].category != Absent
    requires forall j :: (0 <= j < |items| && items[j].category in
                           [Str("field_impact"), Str("market_data"), Str("government_recognition"), Str("specific_benefits")])
                         ==> items[j].content != Absent
    requires forall j :: 0 <= j < k && items[j].category == Str("expert_testimony") ==>
      items[j].content != Absent && items[j].source != Absent
    ensures Report(f, items) == Err(MissingKey("source"))
  {
    SectionPrefixOk(FieldImpactLoop, items, |items|);
    SectionPrefixOk(MarketLoop, items, |items|);
    SectionPrefixOk(BenefitsLoop, items, |items|);
    assert items[..|items|] == items;
    FirstFailure(ExpertLoop, items, k);
  }

  /**
   * A `field_impact`, `market_data` or `government_recognition` item is
   * followed by a "(source)" section exactly when its source is truthy; a
   * `specific_benefits` item never is.
   */
  lemma SourceSectionIffTruthy(l: Loop, item: Item)
    requires l != ExpertLoop && Selected(l, item.category) && ItemLines(l, item).Ok?
    ensures ItemLines(l, item).value[0] == item.content
    ensures |ItemLines(l, item).value| == 2 <==> l != BenefitsLoop && Truthy(item.source)
    ensures |ItemLines(l, item).value| == 2 ==> ItemLines(l, item).value[1].s == "(" + item.source.s + ")"
    ensures |ItemLines(l, item).value| <= 2
  {
  }

  /** An expert bullet quotes the content and always embeds the source. */
  lemma ExpertBulletEmbedsSource(item: Item)
    requires Selected(ExpertLoop, item.category) && ItemLines(ExpertLoop, item).Ok?
    ensures |ItemLines(ExpertLoop, item).value| == 1
    ensures StartsWith(ItemLines(ExpertLoop, item).value[0].s, "• \"" + Show(item.content) + "\"")
    ensures EndsWith(ItemLines(ExpertLoop, item).value[0].s, "(" + Show(item.source) + ")")
  {
    var line := Bullet(item.content, item.source);
    var p := "• \"" + Show(item.content) + "\"";
    var q := "(" + Show(item.source) + ")";
    assert line == p + " " + q;
    assert line[..|p|] == p;
    assert line[|line| - |q|..] == q;
  }

  lemma {:induction false} TextsAppend(xs: seq<Value>, ys: seq<Value>)
    requires AllText(xs) && AllText(ys)
    ensures AllText(xs + ys) && Texts(xs + ys) == Texts(xs) + Texts(ys)
  {
    if xs != [] {
      assert (xs + ys)[1..] == xs[1..] + ys;
      TextsAppend(xs[1..], ys);
    } else {
      assert xs + ys == ys;
    }
  }

  /** Joined text starts with its first three parts, each followed by the separator. */
  lemma JoinStartsWithThree(sep: string, parts: seq<string>)
    requires |parts| >= 4
    ensures StartsWith(Join(sep, parts), parts[0] + sep + parts[1] + sep + parts[2] + sep)
  {
    var p := parts[0] + sep + parts[1] + sep + parts[2] + sep;
    var rest := Join(sep, parts[3..]);
    assert parts[1..][1..][1..] == parts[3..];
    assert Join(sep, parts) == parts[0] + sep + (parts[1] + sep + (parts[2] + sep + rest));
    assert Join(sep, parts) == p + rest;
    assert (p + rest)[..|p|] == p;
  }

  /** Joined text ends with the separator and its last part. */
  lemma JoinEndsWithLast(sep: string, parts: seq<string>)
    requires |parts| >= 2
    ensures EndsWith(Join(sep, parts), sep + parts[|parts| - 1])
  {
    var init := parts[..|parts| - 1];
    var x := parts[|parts| - 1];
    assert parts == init + [x];
    JoinAppend(sep, init, [x]);
    var q := sep + x;
    var out := Join(sep, parts);
    assert out == Join(sep, init) + q;
    assert out[|out| - |q|..] == q;
  }

  /** The report opens with the "Section.2" heading, the overview and the "2.1" heading. */
  lemma ReportOpensWithHeadings(f: Frame, items: seq<Item>)
    requires Report(f, items).Ok?
    ensures StartsWith(Report(f, items).value,
      f.heading + "\n\n" + f.overview + "\n\n" + f.meritHeading + "\n\n")
  {
    var vs := Sections(f, items).value;
    SectionsOpen(f, items);
    JoinStartsWithThree("\n\n", Texts(vs));
  }

  lemma SectionsOpen(f: Frame, items: seq<Item>)
    requires Sections(f, items).Ok?
    ensures |Sections(f, items).value| >= 4
    ensures Sections(f, items).value[0] == Str(f.heading)
    ensures Sections(f, items).value[1] == Str(f.overview)
    ensures Sections(f, items).value[2] == Str(f.meritHeading)
  {
    var s1, s2 := Section(FieldImpactLoop, items).value, Section(MarketLoop, items).value;
    var s3, s4 := Section(BenefitsLoop, items).value, Section(ExpertLoop, items).value;
    var rest := s1 + s2 + [Str(f.meritSummary), Str(f.benefitHeading)] + s3 + [Str(f.expertIntro)] + s4;
    SeqsAssocSix(Opening(f), s1, s2, [Str(f.meritSummary), Str(f.benefitHeading)], s3, [Str(f.expertIntro)], s4);
    assert Sections(f, items).value == Opening(f) + rest;
  }

  lemma SeqsAssocSix<T>(a: seq<T>, b: seq<T>, c: seq<T>, d: seq<T>, e: seq<T>, g: seq<T>, h: seq<T>)
    ensures a + b + c + d + e + g + h == a + (b + c + d + e + g + h)
  {
  }

  /** Without expert testimony, the report ends with the experts' introduction. */
  lemma ReportEndsWithExpertIntro(f: Frame, items: seq<Item>)
    requires Report(f, items).Ok?
    requires forall k :: 0 <= k < |items| ==> items[k].category != Str("expert_testimony")
    ensures EndsWith(Report(f, items).value, "\n\n" + f.expertIntro)
  {
    NoExperts(items);
    var vs := Sections(f, items).value;
    assert vs[|vs| - 1] == Str(f.expertIntro);
    JoinEndsWithLast("\n\n", Texts(vs));
  }

  lemma {:induction false} NoExperts(items: seq<Item>)
    requires forall k :: 0 <= k < |items| ==> items[k].category != Str("expert_testimony")
    requires Section(ExpertLoop, items).Ok?
    ensures Section(ExpertLoop, items) == Ok([])
  {
    if items != [] {
      NoExperts(items[..|items| - 1]);
      var none: seq<Value> := [];
      assert none + none == none;
    }
  }
}
