/**
 * The two calls to the generative model: building the pitch-deck request from a
 * repository's name and README and mapping its outcome (`generatePitchDeck`), and
 * building the slide-image request and picking the image out of its response
 * (`generateSlideImage`). The model itself and JSON parsing are parameters.
 */
module GeminiService {
  import opened Wrappers
  import opened Strings
  import opened Types

  // ---------------------------------------------------------------------------
  // generatePitchDeck

  const DeckModel := "gemini-3-flash-preview"

  /** How much of the README goes into the prompt, in characters. */
  const ReadmeLimit: nat := 20000

  // The three pieces below are the source's prompt template text, character for
  // character, kept as data: the proofs about the prompt (`FillPrompt`,
  // `DeckPromptRendersTemplate`) hold for every template, so none of them needs
  // to look inside this text.

  /** The prompt text before the repository name. */
  const PromptIntro :=
    "\n"
    + "    You are a world-class Venture Capital Analyst and Product Manager.\n"
    + "    Your task is to analyze the following GitHub repository README and create a compelling, professional Investor Pitch Deck.\n"
    + "    \n"
    + "    Repository Name: "

  /** The prompt text between the repository name and the README. */
  const PromptReadmeHeading :=
    "\n"
    + "    \n"
    + "    README Content:\n"
    + "    "

  /** The prompt text after the README (the template's trailing comment is part of the text). */
  const PromptInstructions :=
    " // Limit context if too large\n"
    + "    \n"
    + "    ---\n"
    + "    \n"
    + "    Create a JSON response representing the slide deck.\n"
    + "    The deck should strictly follow this structure:\n"
    + "    1. Title Slide (Project Name, Catchy Tagline)\n"
    + "    2. The Problem (What pain point does this solve?)\n"
    + "    3. The Solution (How does this repo solve it?)\n"
    + "    4. Market Opportunity (Who is this for? Why now?)\n"
    + "    5. Product / Tech (Key features, tech stack advantages)\n"
    + "    6. Business Model (How could this make money? or Open Source strategy)\n"
    + "    7. Competition (Why is this better?)\n"
    + "    8. Future Vision / Roadmap\n"
    + "    \n"
    + "    For each slide, provide:\n"
    + "    - type: One of [TITLE, PROBLEM, SOLUTION, MARKET, PRODUCT, BUSINESS_MODEL, COMPETITION, TEAM, TRACTION, VISION]\n"
    + "    - title: A punchy headline for the slide.\n"
    + "    - bullets: 3-5 concise, impactful bullet points.\n"
    + "    - speakerNotes: A short paragraph of what a presenter would say.\n"
    + "    - visualPrompt: A creative prompt to describe a background image or diagram that represents this slide concept abstractly (e.g., \"A futuristic glowing network diagram\", \"A minimalist isometric server room\").\n"
    + "    - highlight: A single key statistic or phrase to display prominently (optional).\n"
    + "  "

  /** The single message every pitch-deck failure surfaces as. */
  const DeckFailureMessage := "Failed to generate pitch deck. Please try again."

  /** `s.substring(0, n)`: the first `n` characters, or all of `s` when it is shorter. */
  function Truncate(s: string, n: nat): (r: string)
    ensures |r| == if |s| < n then |s| else n
    ensures r <= s
    ensures |s| <= n ==> r == s
  {
    if |s| <= n then s else s[..n]
  }

  /** Where the two interpolated values sit in a five-piece template. */
  lemma Interpolate(a: string, x: string, b: string, y: string, c: string)
    ensures (a + x + b + y + c)[|a|..|a| + |x|] == x
    ensures (a + x + b + y + c)[|a| + |x| + |b|..|a| + |x| + |b| + |y|] == y
    ensures |a + x + b + y + c| == |a| + |x| + |b| + |y| + |c|
  {
    var s := a + x + b + y + c;
    assert s == a + (x + (b + (y + c)));
  }

  /** A prompt with two holes: the repository name and the README excerpt. */
  datatype PromptTemplate = PromptTemplate(intro: string, readmeHeading: string, instructions: string)

  const DeckPromptTemplate := PromptTemplate(PromptIntro, PromptReadmeHeading, PromptInstructions)

  /** Where the README excerpt starts in a filled template. */
  function ReadmeOffset(template: PromptTemplate, repoName: string): nat
  {
    |template.intro| + |repoName| + |template.readmeHeading|
  }

  /**
   * Fills the template: the repository name verbatim, then at most the first
   * `ReadmeLimit` characters of the README, so the prompt's length is bounded
   * whatever the README's.
   */
  function FillPrompt(template: PromptTemplate, repoName: string, readme: string): (prompt: string)
    ensures |prompt| == ReadmeOffset(template, repoName) + |Truncate(readme, ReadmeLimit)| + |template.instructions|
    ensures prompt[|template.intro|..|template.intro| + |repoName|] == repoName
    ensures prompt[ReadmeOffset(template, repoName)..ReadmeOffset(template, repoName) + |Truncate(readme, ReadmeLimit)|]
         == Truncate(readme, ReadmeLimit)
    ensures |prompt| <= ReadmeOffset(template, repoName) + ReadmeLimit + |template.instructions|
  {
    var excerpt := Truncate(readme, ReadmeLimit);
    Interpolate(template.intro, repoName, template.readmeHeading, excerpt, template.instructions);
    template.intro + repoName + template.readmeHeading + excerpt + template.instructions
  }

  /**
   * The two values interpolated into the pitch-deck prompt. A request carries
   * them rather than the rendered text, which is `FillPrompt` of them with
   * `DeckPromptTemplate`.
   */
  datatype DeckPrompt = DeckPrompt(repoName: string, readmeExcerpt: string)

  /** The pitch-deck prompt's values: the repository name and the README's first `ReadmeLimit` characters. */
  function PitchDeckPrompt(repoName: string, readme: string): DeckPrompt
  {
    DeckPrompt(repoName, Truncate(readme, ReadmeLimit))
  }

  /**
   * Rendering a request's values through a template gives the same text as
   * filling the template with the repository name and the whole README: the
   * values lose nothing the prompt would show, and cutting the README again
   * changes nothing.
   */
  lemma DeckPromptRendersTemplate(template: PromptTemplate, repoName: string, readme: string)
    ensures FillPrompt(template, PitchDeckPrompt(repoName, readme).repoName, PitchDeckPrompt(repoName, readme).readmeExcerpt)
         == FillPrompt(template, repoName, readme)
  {
    var excerpt := Truncate(readme, ReadmeLimit);
    assert Truncate(excerpt, ReadmeLimit) == excerpt;
  }

  /** The response schema: required top-level and per-slide fields, and the allowed slide kinds. */
  datatype ResponseSchema = ResponseSchema(
    deckRequired: seq<string>,
    slideRequired: seq<string>,
    slideTypeValues: seq<string>)

  const DeckSchema := ResponseSchema(
    ["projectName", "tagline", "slides"],
    ["type", "title", "bullets", "speakerNotes", "visualPrompt"],
    [Name(Title), Name(Problem), Name(Solution), Name(Market), Name(Product),
     Name(BusinessModel), Name(Competition), Name(Team), Name(Traction), Name(Vision)])

  /** The schema's allowed kinds are exactly the string values of the slide kinds. */
  lemma SchemaSlideTypes(s: string)
    ensures s in DeckSchema.slideTypeValues <==> SlideTypeFromName(s).Some?
  {
    SlideTypesEnumerated();
    var values := DeckSchema.slideTypeValues;
    if SlideTypeFromName(s).Some? {
      var t := SlideTypeFromName(s).value;
      assert t in AllSlideTypes;
      var i :| 0 <= i < |AllSlideTypes| && AllSlideTypes[i] == t;
      assert values[i] == s;
    }
  }

  /** A request for structured (JSON) output constrained by a schema. */
  datatype DeckRequest = DeckRequest(model: string, contents: DeckPrompt, responseMimeType: string, schema: ResponseSchema)

  function PitchDeckRequest(repoName: string, readme: string): DeckRequest
  {
    DeckRequest(DeckModel, PitchDeckPrompt(repoName, readme), "application/json", DeckSchema)
  }

  /** What the text model gives: a thrown error, or a response whose text may be absent. */
  datatype TextReply = TextThrew | TextResponse(text: Option<string>)

  /** The reply's text when it is present, non-empty and parses. */
  function DeckTextOf(reply: TextReply, parse: string -> Option<PresentationData>): Option<string>
  {
    if reply.TextResponse? && reply.text.Some? && reply.text.value != "" && parse(reply.text.value).Some?
    then reply.text else None
  }

  /**
   * `generatePitchDeck`: asks the model for a deck and parses the text it
   * returns. A thrown call, an absent or empty text, and a text that does not
   * parse all fail with the one message `DeckFailureMessage`. The parsed value is
   * taken as it is: no field is checked locally.
   */
  function GeneratePitchDeck(
    repoName: string, readme: string,
    api: DeckRequest -> TextReply, parse: string -> Option<PresentationData>): (r: Result<PresentationData, string>)
    ensures r.Failure? ==> r.error == DeckFailureMessage
    ensures r.Success? <==> DeckTextOf(api(PitchDeckRequest(repoName, readme)), parse).Some?
    ensures r.Success? ==> r.value == parse(api(PitchDeckRequest(repoName, readme)).text.value).value
  {
    match api(PitchDeckRequest(repoName, readme))
    case TextThrew => Failure(DeckFailureMessage)
    case TextResponse(text) =>
      if text.None? || text.value == "" then Failure(DeckFailureMessage)
      else
        match parse(text.value)
        case None => Failure(DeckFailureMessage)
        case Some(deck) => Success(deck)
  }

  /**
   * Only the first `ReadmeLimit` characters of the README matter: the outcome is
   * the one obtained from the truncated README alone, and two READMEs that agree
   * on that prefix give the same outcome.
   */
  lemma TruncationBoundary(
    repoName: string, readme: string, other: string,
    api: DeckRequest -> TextReply, parse: string -> Option<PresentationData>)
    ensures GeneratePitchDeck(repoName, readme, api, parse)
         == GeneratePitchDeck(repoName, Truncate(readme, ReadmeLimit), api, parse)
    ensures Truncate(readme, ReadmeLimit) == Truncate(other, ReadmeLimit) ==>
      GeneratePitchDeck(repoName, readme, api, parse) == GeneratePitchDeck(repoName, other, api, parse)
  {
    assert Truncate(Truncate(readme, ReadmeLimit), ReadmeLimit) == Truncate(readme, ReadmeLimit);
  }

  // ---------------------------------------------------------------------------
  // generateSlideImage

  const ImageModel := "gemini-2.5-flash-image"

  /** The fixed style text put before every image prompt. */
  const ImageStyle :=
    "Generate a high quality, professional, abstract business background image. "
    + "Style: Modern, Minimalist, Tech, Corporate Memorable. "

  const ContextLabel := "Context: "

  /**
   * A style text, then `Context: ` and the prompt: the style is a prefix, the
   * labelled prompt a suffix, and nothing lies between them.
   */
  function StyledPrompt(style: string, prompt: string): (text: string)
    ensures style <= text
    ensures EndsWith(text, ContextLabel + prompt)
    ensures |text| == |style| + |ContextLabel| + |prompt|
  {
    var text := style + ContextLabel + prompt;
    assert text == style + (ContextLabel + prompt);
    text
  }

  const ImageAspectRatio := "16:9"

  const DataUriPrefix := "data:image/png;base64,"

  datatype ImageRequest = ImageRequest(model: string, text: string, aspectRatio: string)

  /** The image request: the style text, then `Context: ` and the slide's prompt, at 16:9. */
  function SlideImageRequest(prompt: string): (req: ImageRequest)
    ensures req.aspectRatio == "16:9"
    ensures EndsWith(req.text, "Context: " + prompt)
    ensures ImageStyle <= req.text
    ensures |req.text| == |ImageStyle| + |"Context: "| + |prompt|
  {
    ImageRequest(ImageModel, StyledPrompt(ImageStyle, prompt), ImageAspectRatio)
  }

  /** The parts of an image response that may carry data. */
  datatype InlineData = InlineData(data: string)
  datatype Part = Part(inlineData: Option<InlineData>)
  datatype Content = Content(parts: Option<seq<Part>>)
  datatype Candidate = Candidate(content: Option<Content>)

  /** What the image model gives: a thrown error, or a response whose candidates may be absent. */
  datatype ImageReply = ImageThrew | ImageResponse(candidates: Option<seq<Candidate>>)

  /** `response.candidates?.[0]?.content?.parts || []`. */
  function ResponseParts(candidates: Option<seq<Candidate>>): seq<Part>
  {
    if candidates.None? || |candidates.value| == 0 then []
    else
      var first := candidates.value[0];
      if first.content.None? || first.content.value.parts.None? then []
      else first.content.value.parts.value
  }

  /** The index of the first part that carries inline data, if any does. */
  function FirstInlineIndex(parts: seq<Part>): (k: Option<nat>)
    ensures k.Some? ==> k.value < |parts| && parts[k.value].inlineData.Some?
    ensures k.Some? ==> forall j :: 0 <= j < k.value ==> parts[j].inlineData.None?
    ensures k.None? ==> forall j :: 0 <= j < |parts| ==> parts[j].inlineData.None?
  {
    if |parts| == 0 then None
    else if parts[0].inlineData.Some? then Some(0)
    else
      match FirstInlineIndex(parts[1..])
      case None => None
      case Some(k) => Some(k + 1)
  }

  /** The image `generateSlideImage(prompt)` resolves to. */
  function SlideImage(prompt: string, api: ImageRequest -> ImageReply): Option<string>
  {
    match api(SlideImageRequest(prompt))
    case ImageThrew => None
    case ImageResponse(candidates) =>
      var parts := ResponseParts(candidates);
      match FirstInlineIndex(parts)
      case None => None
      case Some(k) => Some(DataUriPrefix + parts[k].inlineData.value.data)
  }

  /**
   * The image is the data of the first part that carries inline data, as a PNG
   * data URI; later parts are ignored. There is none when the call throws, or
   * when no part (of no candidate, or of a candidate without content or parts)
   * carries inline data.
   */
  lemma SlideImageSelection(prompt: string, api: ImageRequest -> ImageReply)
    ensures var reply := api(SlideImageRequest(prompt));
      && (SlideImage(prompt, api).None? <==>
            || reply.ImageThrew?
            || forall j :: 0 <= j < |ResponseParts(reply.candidates)| ==> ResponseParts(reply.candidates)[j].inlineData.None?)
      && (SlideImage(prompt, api).Some? ==>
            var parts := ResponseParts(reply.candidates);
            exists k :: 0 <= k < |parts|
              && parts[k].inlineData.Some?
              && (forall j :: 0 <= j < k ==> parts[j].inlineData.None?)
              && SlideImage(prompt, api).value == DataUriPrefix + parts[k].inlineData.value.data)
  {
  }

  /**
   * `generateSlideImage`: requests an image and scans the first candidate's
   * parts for the first one carrying inline data. It never throws: a thrown call
   * yields no image.
   */
  method GenerateSlideImage(prompt: string, api: ImageRequest -> ImageReply) returns (image: Option<string>)
    ensures image == SlideImage(prompt, api)
    ensures image.Some? ==> DataUriPrefix <= image.value
  {
    var response := api(SlideImageRequest(prompt));
    if response.ImageThrew? {
      return None;
    }
    var parts := ResponseParts(response.candidates);
    for i := 0 to |parts|
      invariant forall j :: 0 <= j < i ==> parts[j].inlineData.None?
    {
      if parts[i].inlineData.Some? {
        assert FirstInlineIndex(parts) == Some(i);
        return Some(DataUriPrefix + parts[i].inlineData.value.data);
      }
    }
    return None;
  }
}
