/**
 * The deck data model: the closed set of slide kinds, a slide, a deck, and the
 * six-valued generation status of one analysis request.
 */
module Types {
  import opened Wrappers

  /** The kinds of slide. Each kind's string value is its own upper-case name. */
  datatype SlideType =
    | Title | Problem | Solution | Market | Product
    | BusinessModel | Competition | Team | Traction | Vision

  /** Every kind, in declaration order (what `Object.values(SlideType)` lists). */
  const AllSlideTypes: seq<SlideType> :=
    [Title, Problem, Solution, Market, Product, BusinessModel, Competition, Team, Traction, Vision]

  /** The string value of a kind. */
  function Name(t: SlideType): string
  {
    match t
    case Title => "TITLE"
    case Problem => "PROBLEM"
    case Solution => "SOLUTION"
    case Market => "MARKET"
    case Product => "PRODUCT"
    case BusinessModel => "BUSINESS_MODEL"
    case Competition => "COMPETITION"
    case Team => "TEAM"
    case Traction => "TRACTION"
    case Vision => "VISION"
  }

  /** The kind whose string value is `s`, if there is one: the inverse of `Name`. */
  function SlideTypeFromName(s: string): (r: Option<SlideType>)
    ensures r.Some? ==> Name(r.value) == s
    ensures forall t :: Name(t) == s ==> r == Some(t)
  {
    if s == "TITLE" then Some(Title)
    else if s == "PROBLEM" then Some(Problem)
    else if s == "SOLUTION" then Some(Solution)
    else if s == "MARKET" then Some(Market)
    else if s == "PRODUCT" then Some(Product)
    else if s == "BUSINESS_MODEL" then Some(BusinessModel)
    else if s == "COMPETITION" then Some(Competition)
    else if s == "TEAM" then Some(Team)
    else if s == "TRACTION" then Some(Traction)
    else if s == "VISION" then Some(Vision)
    else None
  }

  /** There are exactly ten kinds, all listed once, and their string values are pairwise distinct. */
  lemma SlideTypesEnumerated()
    ensures |AllSlideTypes| == 10
    ensures forall t :: t in AllSlideTypes
    ensures forall i, j :: 0 <= i < j < |AllSlideTypes| ==> Name(AllSlideTypes[i]) != Name(AllSlideTypes[j])
  {
    forall t ensures t in AllSlideTypes {
      match t
      case Title => assert AllSlideTypes[0] == t;
      case Problem => assert AllSlideTypes[1] == t;
      case Solution => assert AllSlideTypes[2] == t;
      case Market => assert AllSlideTypes[3] == t;
      case Product => assert AllSlideTypes[4] == t;
      case BusinessModel => assert AllSlideTypes[5] == t;
      case Competition => assert AllSlideTypes[6] == t;
      case Team => assert AllSlideTypes[7] == t;
      case Traction => assert AllSlideTypes[8] == t;
      case Vision => assert AllSlideTypes[9] == t;
    }
  }

  /**
   * One slide. Every field is present except `highlight`; there is no slide-level
   * tagline. (`kind` is the source's `type`, a reserved word here.)
   */
  datatype SlideContent = SlideContent(
    id: string,
    kind: SlideType,
    title: string,
    bullets: seq<string>,
    speakerNotes: string,
    visualPrompt: string,
    highlight: Option<string>)

  /** A deck: the project's name and tagline and the slides in presentation order. */
  datatype PresentationData = PresentationData(
    projectName: string,
    tagline: string,
    slides: seq<SlideContent>)

  /** Where one analysis request stands. */
  datatype GenerationStatus =
    | Idle | FetchingRepo | Analyzing | GeneratingDeck | Completed | Error
}
