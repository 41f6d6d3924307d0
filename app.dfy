/**
 * The application shell (`App`): the generation status machine driven by
 * `handleAnalyze`, the positional re-assignment of slide ids, `resetApp`, and
 * the choice between the form and the presentation.
 *
 * `handleAnalyze` is one atomic step here; the network, the text model and the
 * JSON parser are its parameters, and the fixed delay between ANALYZING and
 * GENERATING_DECK is a single transition.
 */
module App {
  import opened Wrappers
  import opened Strings
  import opened Types
  import opened GithubService
  import opened GeminiService
  import InputSection

  const NoReadmeMessage :=
    "Couldn't find a README at that URL. Ensure the repository is public and the URL is correct."

  const GenericFailureMessage := "Something went wrong during generation. Please try again."

  /** `err.message || <generic message>`. */
  function ThrownMessage(message: string): (shown: string)
    ensures shown != ""
    ensures message != "" ==> shown == message
    ensures message == "" ==> shown == GenericFailureMessage
  {
    if message != "" then message else GenericFailureMessage
  }

  /** The id given to the slide at position `i`: `slide-<i>`. */
  function SlideId(i: nat): string
  {
    "slide-" + NatToDecimal(i)
  }

  lemma SlideIdInjective(i: nat, j: nat)
    ensures SlideId(i) == SlideId(j) ==> i == j
  {
    if SlideId(i) == SlideId(j) {
      assert NatToDecimal(i) == SlideId(i)[6..];
      assert NatToDecimal(j) == SlideId(j)[6..];
      NatToDecimalInjective(i, j);
    }
  }

  /**
   * `deck.slides.map((s, i) => ({ ...s, id: \`slide-${i}\` }))`: the same slides,
   * in the same order, each with its id replaced by its position's id and every
   * other field unchanged.
   */
  function AssignSlideIds(slides: seq<SlideContent>): (numbered: seq<SlideContent>)
    ensures |numbered| == |slides|
    ensures forall i :: 0 <= i < |numbered| ==>
      numbered[i].id == SlideId(i) && numbered[i].(id := slides[i].id) == slides[i]
  {
    seq(|slides|, i requires 0 <= i < |slides| => slides[i].(id := SlideId(i)))
  }

  /** Whatever ids the model returned (none, duplicates, a mix), the numbered ids are pairwise distinct. */
  lemma AssignedIdsDistinct(slides: seq<SlideContent>)
    ensures var numbered := AssignSlideIds(slides);
      forall i, j :: 0 <= i < j < |numbered| ==> numbered[i].id != numbered[j].id
  {
    var numbered := AssignSlideIds(slides);
    forall i, j | 0 <= i < j < |numbered|
      ensures numbered[i].id != numbered[j].id
    {
      SlideIdInjective(i, j);
    }
  }

  /** The status changes the application makes: submitting, the pipeline's steps, and closing. */
  predicate CanFollow(from: GenerationStatus, to: GenerationStatus)
  {
    || (!InputSection.IsLoading(from) && to == FetchingRepo)
    || (from == FetchingRepo && (to == Analyzing || to == Error))
    || (from == Analyzing && to == GeneratingDeck)
    || (from == GeneratingDeck && (to == Completed || to == Error))
    || (from == Completed && to == Idle)
  }

  /** What one analysis does: the statuses it sets, in order, the error it leaves, and the deck it stores. */
  datatype Analysis = Analysis(trace: seq<GenerationStatus>, error: Option<string>, deck: Option<PresentationData>)

  function Analyze(
    url: string, fetch: string -> FetchOutcome,
    api: DeckRequest -> TextReply, parse: string -> Option<PresentationData>): Analysis
  {
    AnalysisOf(LookupReadme(url, fetch), api, parse)
  }

  /** The analysis once the README lookup has answered. */
  function AnalysisOf(
    readme: Option<Readme>, api: DeckRequest -> TextReply, parse: string -> Option<PresentationData>): Analysis
  {
    match readme
    case None => Analysis([FetchingRepo, Error], Some(NoReadmeMessage), None)
    case Some(readme) =>
      match GeneratePitchDeck(readme.name, readme.content, api, parse)
      case Failure(message) =>
        Analysis([FetchingRepo, Analyzing, GeneratingDeck, Error], Some(ThrownMessage(message)), None)
      case Success(deck) =>
        Analysis([FetchingRepo, Analyzing, GeneratingDeck, Completed], None,
                 Some(deck.(slides := AssignSlideIds(deck.slides))))
  }

  /**
   * An analysis starts at FETCHING_REPO; a missing README goes straight to
   * ERROR with the README message and stores no deck; a failed generation passes
   * through ANALYZING and GENERATING_DECK to ERROR with the generation failure's
   * message; a successful one passes through them to COMPLETED and stores the
   * returned deck with its ids re-numbered and nothing else changed.
   */
  lemma AnalyzeOutcomes(
    url: string, fetch: string -> FetchOutcome,
    api: DeckRequest -> TextReply, parse: string -> Option<PresentationData>)
    ensures var a := Analyze(url, fetch, api, parse);
      && |a.trace| >= 2 && a.trace[0] == FetchingRepo
      && (a.trace[|a.trace| - 1] == Completed <==> a.deck.Some?)
      && (a.trace[|a.trace| - 1] == Completed || a.trace[|a.trace| - 1] == Error)
      && (LookupReadme(url, fetch).None? ==>
            a.trace == [FetchingRepo, Error] && a.error == Some(NoReadmeMessage) && a.deck.None?)
      && (LookupReadme(url, fetch).Some? ==>
            var readme := LookupReadme(url, fetch).value;
            var result := GeneratePitchDeck(readme.name, readme.content, api, parse);
            && a.trace[..3] == [FetchingRepo, Analyzing, GeneratingDeck]
            && (result.Failure? ==> a.error == Some(DeckFailureMessage) && a.deck.None?)
            && (result.Success? ==>
                  && a.error.None?
                  && a.deck.Some?
                  && a.deck.value.projectName == result.value.projectName
                  && a.deck.value.tagline == result.value.tagline
                  && |a.deck.value.slides| == |result.value.slides|
                  && (forall i :: 0 <= i < |a.deck.value.slides| ==>
                        a.deck.value.slides[i] == result.value.slides[i].(id := SlideId(i)))))
  {
    var a := Analyze(url, fetch, api, parse);
    if LookupReadme(url, fetch).Some? {
      var readme := LookupReadme(url, fetch).value;
      var result := GeneratePitchDeck(readme.name, readme.content, api, parse);
      if result.Success? {
        var slides := result.value.slides;
        var numbered := AssignSlideIds(slides);
        forall i | 0 <= i < |numbered| ensures numbered[i] == slides[i].(id := SlideId(i)) {
          assert numbered[i].(id := slides[i].id) == slides[i];
        }
      }
    }
  }

  /**
   * Started from a status in which the form accepts a submission, an analysis
   * makes only permitted status changes and ends in a status in which the form
   * accepts one again.
   */
  lemma AnalyzeFollowsStatusMachine(
    from: GenerationStatus, url: string, fetch: string -> FetchOutcome,
    api: DeckRequest -> TextReply, parse: string -> Option<PresentationData>)
    requires !InputSection.IsLoading(from)
    ensures IsPath([from] + Analyze(url, fetch, api, parse).trace)
    ensures !InputSection.IsLoading(Analyze(url, fetch, api, parse).trace[|Analyze(url, fetch, api, parse).trace| - 1])
  {
    var trace := Analyze(url, fetch, api, parse).trace;
    assert trace == AnalysisOf(LookupReadme(url, fetch), api, parse).trace;
    assert || trace == [FetchingRepo, Error]
           || trace == [FetchingRepo, Analyzing, GeneratingDeck, Error]
           || trace == [FetchingRepo, Analyzing, GeneratingDeck, Completed];
  }

  /** `status === 'COMPLETED' && presentation`: the presentation is shown, otherwise the form. */
  predicate PresentationShown(status: GenerationStatus, presentation: Option<PresentationData>)
  {
    status == Completed && presentation.Some?
  }

  /**
   * What the screen shows once an analysis has run, whatever deck was stored
   * before it: the presentation exactly when the analysis produced a deck, and
   * otherwise the form, with its error box exactly when the analysis failed.
   */
  lemma AnalysisScreen(
    url: string, fetch: string -> FetchOutcome,
    api: DeckRequest -> TextReply, parse: string -> Option<PresentationData>,
    previous: Option<PresentationData>)
    ensures var a := Analyze(url, fetch, api, parse);
      && (PresentationShown(a.trace[|a.trace| - 1], if a.deck.Some? then a.deck else previous) <==> a.deck.Some?)
      && (InputSection.ShowsErrorBox(a.error) <==> a.trace[|a.trace| - 1] == Error)
  {
    AnalyzeOutcomes(url, fetch, api, parse);
  }

  /** Every status in `trace` may follow the one before it. */
  predicate IsPath(trace: seq<GenerationStatus>)
  {
    forall i :: 0 <= i < |trace| - 1 ==> CanFollow(trace[i], trace[i + 1])
  }

  /** The application's state. `statusLog` records every status set, in order. */
  class App {
    var status: GenerationStatus
    var error: Option<string>
    var presentation: Option<PresentationData>
    ghost var statusLog: seq<GenerationStatus>

    constructor()
      ensures status == Idle && error.None? && presentation.None?
      ensures statusLog == [Idle]
    {
      status, error, presentation := Idle, None, None;
      statusLog := [Idle];
    }

    /** The presentation is shown exactly when the status is COMPLETED and a deck is stored. */
    predicate ShowsPresentation()
      reads this
    {
      PresentationShown(status, presentation)
    }

    method SetStatus(next: GenerationStatus)
      modifies this`status, this`statusLog
      ensures status == next && statusLog == old(statusLog) + [next]
    {
      status := next;
      statusLog := statusLog + [next];
    }

    /**
     * `handleAnalyze`: clears the error and sets FETCHING_REPO, fetches the
     * README, and either reports that none was found, or moves through ANALYZING
     * and GENERATING_DECK, generates the deck, re-assigns its ids, stores it and
     * sets COMPLETED; a failed generation sets ERROR with its message. On the
     * error paths the stored deck is left as it was.
     */
    method HandleAnalyze(
      url: string, fetch: string -> FetchOutcome,
      api: DeckRequest -> TextReply, parse: string -> Option<PresentationData>)
      modifies this
      ensures var a := Analyze(url, fetch, api, parse);
        && statusLog == old(statusLog) + a.trace
        && status == a.trace[|a.trace| - 1]
        && error == a.error
        && presentation == (if a.deck.Some? then a.deck else old(presentation))
      ensures ShowsPresentation() <==> Analyze(url, fetch, api, parse).deck.Some?
    {
      ghost var start := statusLog;
      SetStatus(FetchingRepo);
      error := None;

      var repoData, _ := FetchRepoReadme(url, fetch);
      assert Analyze(url, fetch, api, parse) == AnalysisOf(repoData, api, parse);
      if repoData.None? {
        SetStatus(Error);
        error := Some(NoReadmeMessage);
        assert statusLog == start + [FetchingRepo, Error];
        return;
      }

      SetStatus(Analyzing);
      SetStatus(GeneratingDeck);
      assert statusLog == start + [FetchingRepo, Analyzing, GeneratingDeck];

      var deck := GeneratePitchDeck(repoData.value.name, repoData.value.content, api, parse);
      if deck.Failure? {
        SetStatus(Error);
        error := Some(ThrownMessage(deck.error));
        return;
      }

      var data := deck.value;
      data := data.(slides := AssignSlideIds(data.slides));
      presentation := Some(data);
      SetStatus(Completed);
    }

    /** `resetApp`: back to IDLE with no deck and no error. */
    method ResetApp()
      modifies this
      ensures status == Idle && presentation.None? && error.None?
      ensures statusLog == old(statusLog) + [Idle]
      ensures !ShowsPresentation()
    {
      presentation := None;
      SetStatus(Idle);
      error := None;
    }
  }
}
