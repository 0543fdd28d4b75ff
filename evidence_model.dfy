/**
 * The evidence record that evidence gathering builds, the validator scores in
 * place and the categoriser buckets, with the web-search and academic-lookup
 * results it carries.
 */
module EvidenceModel {
  import opened Wrappers

  /**
   * The category tags scoring attaches to a record. The academic block and
   * an `.edu` web source both produce the tag `'academic'`, so both are
   * `Academic` here.
   */
  datatype Category = Academic | Government | Organization | ResearchBased | Recognition | ExpertValidated

  /** The tag string the source uses for each category. */
  function CategoryName(c: Category): string {
    match c
    case Academic => "academic"
    case Government => "government"
    case Organization => "organization"
    case ResearchBased => "research_based"
    case Recognition => "recognition"
    case ExpertValidated => "expert_validated"
  }

  const AllCategories: seq<Category> :=
    [Academic, Government, Organization, ResearchBased, Recognition, ExpertValidated]

  /**
   * One web-search result. `source` is the provider tag; a missing `source`
   * key reads as "" in the validator and is written so here. `snippet` is
   * None when the provider returned no snippet (Python `None`); a missing
   * `snippet` key reads as "" and is written `Some("")`.
   */
  datatype WebItem = WebItem(source: string, title: Option<string>, snippet: Option<string>, url: Option<string>)

  /**
   * The academic-lookup dictionary. Each field is None when its key is
   * absent; the empty dictionary `{}` is the value with every field None.
   */
  datatype AcademicEvidence = AcademicEvidence(
    title: Option<string>,
    authors: Option<seq<string>>,
    year: Option<int>,
    citationCount: Option<int>,
    influentialCitationCount: Option<int>,
    url: Option<string>)
  {
    /** Python truthiness of the dictionary: it has at least one key. */
    predicate NonEmpty() {
      title.Some? || authors.Some? || year.Some? || citationCount.Some? ||
      influentialCitationCount.Some? || url.Some?
    }
  }

  /** The dictionary `{}` that a failed academic lookup returns. */
  const EmptyAcademic := AcademicEvidence(None, None, None, None, None, None)

  /**
   * An evidence record. The six gathered fields never change after the
   * record is built; scoring writes `strengthScore` and `categories`, which an
   * unscored record holds as 0 and [].
   */
  class EvidenceRecord {
    const claimText: string
    const claimType: string
    const initialEvidence: string
    const webEvidence: seq<WebItem>
    const academicEvidence: Option<AcademicEvidence>
    const expertValidation: Option<string>
    var strengthScore: int
    var categories: seq<Category>

    constructor (claimText: string, claimType: string, initialEvidence: string,
                 webEvidence: seq<WebItem>, academicEvidence: Option<AcademicEvidence>,
                 expertValidation: Option<string>)
      ensures this.claimText == claimText && this.claimType == claimType
      ensures this.initialEvidence == initialEvidence && this.webEvidence == webEvidence
      ensures this.academicEvidence == academicEvidence && this.expertValidation == expertValidation
      ensures strengthScore == 0 && categories == []
    {
      this.claimText := claimText;
      this.claimType := claimType;
      this.initialEvidence := initialEvidence;
      this.webEvidence := webEvidence;
      this.academicEvidence := academicEvidence;
      this.expertValidation := expertValidation;
      strengthScore := 0;
      categories := [];
    }
  }
}
