/**
 * A presentation session (`PresentationView`): the current slide index and
 * navigation, the keyboard commands, the per-slide image cache with its single
 * in-flight guard, the pre-generation of the title slide's image, and the
 * export guard.
 *
 * Each asynchronous handler is split at its `await`: a `Begin` step that checks
 * the guard, sets the flag and says what is requested, and a `Complete` step that
 * takes the awaited result and stores it.
 */
module PresentationView {
  import opened Wrappers
  import opened Types
  import opened Slide

  /** `nextSlide`: one step forward, except on the last slide. */
  function NextIndex(index: nat, count: nat): (next: nat)
    ensures index < count ==> next < count
    ensures next == index || next == index + 1
    ensures next == index <==> index + 1 >= count
  {
    if index < count - 1 then index + 1 else index
  }

  /** `prevSlide`: one step back, except on the first slide. */
  function PrevIndex(index: nat): (prev: nat)
    ensures prev == index || prev + 1 == index
    ensures prev == index <==> index == 0
  {
    if index > 0 then index - 1 else index
  }

  /** Stepping forward and then back returns to the same slide, unless already on the last. */
  lemma NextThenPrev(index: nat, count: nat)
    requires index + 1 < count
    ensures PrevIndex(NextIndex(index, count)) == index
  {
  }

  datatype KeyCommand = GoNext | GoPrevious | Close | Ignore

  /** `handleKeyDown`: the right arrow, the left arrow and Escape; every other key does nothing. */
  function KeyCommandOf(key: string): (command: KeyCommand)
    ensures command == GoNext <==> key == "ArrowRight"
    ensures command == GoPrevious <==> key == "ArrowLeft"
    ensures command == Close <==> key == "Escape"
  {
    if key == "ArrowRight" then GoNext
    else if key == "ArrowLeft" then GoPrevious
    else if key == "Escape" then Close
    else Ignore
  }

  /** `generatedImages[id]`: the stored image, if any. */
  function ImageFor(images: map<string, string>, id: string): Option<string>
  {
    if id in images then Some(images[id]) else None
  }

  /**
   * `if (imageUrl) setGeneratedImages(prev => ({ ...prev, [id]: imageUrl }))`:
   * a non-empty image is stored under `id`, replacing any earlier one; an absent
   * or empty one changes nothing. Every other slide's entry is kept.
   */
  function StoreImage(images: map<string, string>, id: string, image: Option<string>): (stored: map<string, string>)
    ensures Truthy(image) ==> ImageFor(stored, id) == image && stored.Keys == images.Keys + {id}
    ensures !Truthy(image) ==> stored == images
    ensures forall k :: k != id ==> ImageFor(stored, k) == ImageFor(images, k)
  {
    if Truthy(image) then images[id := image.value] else images
  }

  /** What is handed to the export: the deck and the images generated so far. */
  datatype ExportJob = ExportJob(deck: PresentationData, images: map<string, string>)

  const ExportFailureAlert := "Sorry, failed to generate the PPTX. Please try again."

  class PresentationView {
    const data: PresentationData
    var currentIndex: nat
    var generatedImages: map<string, string>
    var isGeneratingImage: bool
    var isExporting: bool

    /** The current index always names a slide of the deck. */
    ghost predicate Valid()
      reads this
    {
      currentIndex < |data.slides|
    }

    /** Opening a deck: the first slide, no images, nothing in flight. */
    constructor(data: PresentationData)
      requires |data.slides| > 0
      ensures Valid() && this.data == data
      ensures currentIndex == 0 && generatedImages == map[]
      ensures !isGeneratingImage && !isExporting
    {
      this.data := data;
      currentIndex := 0;
      generatedImages := map[];
      isGeneratingImage := false;
      isExporting := false;
    }

    function CurrentSlide(): SlideContent
      requires Valid()
      reads this
    {
      data.slides[currentIndex]
    }

    /** `!!generatedImages[id]`. */
    predicate HasImage(id: string)
      reads this
    {
      Truthy(ImageFor(generatedImages, id))
    }

    /** "Slide i of n": the 1-based position of the current slide. */
    function Position(): (position: nat)
      requires Valid()
      reads this
      ensures 1 <= position <= |data.slides|
    {
      currentIndex + 1
    }

    predicate PreviousDisabled()
      reads this
    {
      currentIndex == 0
    }

    predicate NextDisabled()
      reads this
    {
      currentIndex == |data.slides| - 1
    }

    /** The navigation buttons are disabled exactly where the handlers would do nothing. */
    lemma NavigationButtons()
      requires Valid()
      ensures PreviousDisabled() <==> PrevIndex(currentIndex) == currentIndex
      ensures NextDisabled() <==> NextIndex(currentIndex, |data.slides|) == currentIndex
    {
    }

    /** The generate button is disabled while a generation is in flight or when the slide already has an image. */
    predicate GenerateDisabled()
      requires Valid()
      reads this
    {
      isGeneratingImage || HasImage(CurrentSlide().id)
    }

    function GenerateCaption(): (caption: string)
      requires Valid()
      reads this
      ensures caption == "Generate Visual" <==> !GenerateDisabled()
    {
      if HasImage(CurrentSlide().id) then "Visual Ready"
      else if isGeneratingImage then "Designing..."
      else "Generate Visual"
    }

    /**
     * The slide shown: the current slide rendered with its stored image, as the
     * title slide's backdrop or in the picture area, and the gradient or the
     * prompt placeholder while it has none.
     */
    function CurrentView(): (view: SlideView)
      requires Valid()
      reads this
      ensures view.title == CurrentSlide().title
      ensures LayoutOfView(view) == LayoutOf(CurrentSlide().kind)
      ensures HasImage(CurrentSlide().id) ==>
        if view.TitleView? then view.backdrop == BackgroundImage(generatedImages[CurrentSlide().id])
        else view.visual == ImagePanel(generatedImages[CurrentSlide().id])
      ensures !HasImage(CurrentSlide().id) ==>
        if view.TitleView? then view.backdrop == GradientFallback
        else view.visual.PromptPlaceholder?
    {
      Render(CurrentSlide(), ImageFor(generatedImages, CurrentSlide().id))
    }

    method NextSlide()
      requires Valid()
      modifies this`currentIndex
      ensures Valid()
      ensures currentIndex == NextIndex(old(currentIndex), |data.slides|)
    {
      if currentIndex < |data.slides| - 1 {
        currentIndex := currentIndex + 1;
      }
    }

    method PrevSlide()
      requires Valid()
      modifies this`currentIndex
      ensures Valid()
      ensures currentIndex == PrevIndex(old(currentIndex))
    {
      if currentIndex > 0 {
        currentIndex := currentIndex - 1;
      }
    }

    /** `handleKeyDown`: the arrows navigate; Escape asks the application to close the view. */
    method HandleKeyDown(key: string) returns (close: bool)
      requires Valid()
      modifies this`currentIndex
      ensures Valid()
      ensures close <==> key == "Escape"
      ensures currentIndex == match KeyCommandOf(key)
        case GoNext => NextIndex(old(currentIndex), |data.slides|)
        case GoPrevious => PrevIndex(old(currentIndex))
        case _ => old(currentIndex)
    {
      close := false;
      if key == "ArrowRight" {
        NextSlide();
      }
      if key == "ArrowLeft" {
        PrevSlide();
      }
      if key == "Escape" {
        close := true;
      }
    }

    /**
     * `handleGenerateImage` up to its `await`: when no generation is in flight
     * and the current slide has no image, sets the in-flight flag and requests
     * an image for the current slide; otherwise does nothing. It requests exactly
     * when the generate button is enabled.
     */
    method BeginGenerateImage() returns (request: Option<SlideContent>)
      requires Valid()
      modifies this`isGeneratingImage
      ensures request.Some? <==> !old(GenerateDisabled())
      ensures request.Some? ==> request.value == CurrentSlide() && isGeneratingImage
      ensures request.None? ==> isGeneratingImage == old(isGeneratingImage)
    {
      if HasImage(CurrentSlide().id) || isGeneratingImage {
        return None;
      }
      isGeneratingImage := true;
      request := Some(CurrentSlide());
    }

    /**
     * `handleGenerateImage` after its `await`: stores a non-empty image under the
     * id of the slide it was requested for, and clears the in-flight flag
     * whatever the outcome.
     */
    method CompleteGenerateImage(slideId: string, image: Option<string>)
      modifies this`generatedImages, this`isGeneratingImage
      ensures !isGeneratingImage
      ensures generatedImages == StoreImage(old(generatedImages), slideId, image)
    {
      generatedImages := StoreImage(generatedImages, slideId, image);
      isGeneratingImage := false;
    }

    /**
     * The mount effect: requests an image for the first slide when it has none
     * stored. It neither checks nor sets the in-flight flag.
     */
    function TitleImageRequest(): (request: Option<SlideContent>)
      requires Valid()
      reads this
      ensures request.Some? <==> !HasImage(data.slides[0].id)
      ensures request.Some? ==> request.value == data.slides[0]
    {
      if !HasImage(data.slides[0].id) then Some(data.slides[0]) else None
    }

    /** The mount effect after its `await`: stores a non-empty image under the first slide's id. */
    method CompleteTitleImage(image: Option<string>)
      requires Valid()
      modifies this`generatedImages
      ensures generatedImages == StoreImage(old(generatedImages), data.slides[0].id, image)
    {
      generatedImages := StoreImage(generatedImages, data.slides[0].id, image);
    }

    /**
     * `handleExport` up to its `await`: while an export is running, does
     * nothing; otherwise sets the flag and hands over the deck and the images
     * stored so far.
     */
    method BeginExport() returns (job: Option<ExportJob>)
      modifies this`isExporting
      ensures job.Some? <==> !old(isExporting)
      ensures job.Some? ==> job.value == ExportJob(data, generatedImages)
      ensures isExporting
    {
      if isExporting {
        return None;
      }
      isExporting := true;
      job := Some(ExportJob(data, generatedImages));
    }

    /**
     * `handleExport` after its `await`: clears the flag whatever the outcome and
     * gives the alert shown when the export failed. The stored images and the
     * current slide are untouched.
     */
    method FinishExport(succeeded: bool) returns (alert: Option<string>)
      modifies this`isExporting
      ensures !isExporting
      ensures alert.Some? <==> !succeeded
      ensures alert.Some? ==> alert.value == ExportFailureAlert
      ensures generatedImages == old(generatedImages) && currentIndex == old(currentIndex)
    {
      isExporting := false;
      alert := if succeeded then None else Some(ExportFailureAlert);
    }
  }

  /** Two clicks on the generate button before the first completes request at most one image. */
  method DoubleClickRequestsOnce(view: PresentationView)
    returns (first: Option<SlideContent>, second: Option<SlideContent>)
    requires view.Valid()
    modifies view
    ensures !(first.Some? && second.Some?)
  {
    first := view.BeginGenerateImage();
    second := view.BeginGenerateImage();
  }

  /**
   * The mount effect does not consult the in-flight flag: with the first slide
   * showing and no image yet, the title request and a click both ask for an
   * image for the same slide, and the one that completes last is the one kept.
   */
  method TitleImageRace(view: PresentationView, clickedImage: string, titleImage: string)
    returns (titleRequest: Option<SlideContent>, clickRequest: Option<SlideContent>)
    requires view.Valid() && view.currentIndex == 0
    requires !view.isGeneratingImage && !view.HasImage(view.data.slides[0].id)
    requires clickedImage != "" && titleImage != ""
    modifies view
    ensures titleRequest == clickRequest == Some(view.data.slides[0])
    ensures ImageFor(view.generatedImages, view.data.slides[0].id) == Some(titleImage)
  {
    titleRequest := view.TitleImageRequest();
    clickRequest := view.BeginGenerateImage();
    view.CompleteGenerateImage(view.data.slides[0].id, Some(clickedImage));
    view.CompleteTitleImage(Some(titleImage));
  }
}
