/**
 * The URL form (`InputSection`): which statuses count as loading, when the
 * controls are disabled, which progress message each status shows, when the
 * error box shows, and the submit guard that forwards a URL only when its
 * trimmed form is non-empty.
 */
module InputSection {
  import opened Wrappers
  import opened Strings
  import opened Types

  /** `isLoading`: the three in-progress statuses, and only those. */
  function IsLoading(status: GenerationStatus): (loading: bool)
    ensures loading <==> status == FetchingRepo || status == Analyzing || status == GeneratingDeck
  {
    status != Idle && status != Error && status != Completed
  }

  /** The URL field is disabled while loading. */
  function InputDisabled(status: GenerationStatus): bool
  {
    IsLoading(status)
  }

  /** The submit button is disabled while loading or while the field is empty. */
  function SubmitDisabled(status: GenerationStatus, url: string): (disabled: bool)
    ensures !disabled <==> !InputDisabled(status) && |url| > 0
  {
    IsLoading(status) || url == ""
  }

  /** The submit button's caption: "Processing..." exactly while loading, "Generate" otherwise. */
  function ButtonCaption(status: GenerationStatus): (caption: string)
    ensures caption == "Processing..." <==> InputDisabled(status)
    ensures caption != "Processing..." ==> caption == "Generate"
  {
    if IsLoading(status) then "Processing..." else "Generate"
  }

  /** The progress message: shown exactly while loading, and a different one for each loading status. */
  function ProgressMessage(status: GenerationStatus): (message: Option<string>)
    ensures message.Some? <==> IsLoading(status)
  {
    match status
    case FetchingRepo => Some("Fetching repository details...")
    case Analyzing => Some("Reading documentation...")
    case GeneratingDeck => Some("Crafting your business story...")
    case _ => None
  }

  lemma ProgressMessagesDistinct(a: GenerationStatus, b: GenerationStatus)
    requires ProgressMessage(a).Some? && ProgressMessage(a) == ProgressMessage(b)
    ensures a == b
  {
  }

  /** `errorMessage && ...`: the error box shows exactly for a present, non-empty message. */
  function ShowsErrorBox(errorMessage: Option<string>): (shown: bool)
    ensures shown <==> errorMessage.Some? && |errorMessage.value| > 0
  {
    errorMessage.Some? && errorMessage.value != ""
  }

  /** The form's own state: the text typed into the URL field. */
  class InputForm {
    var url: string

    constructor()
      ensures url == ""
    {
      url := "";
    }

    /** `onChange`: the field's new text replaces the old. */
    method OnChange(value: string)
      modifies this
      ensures url == value
    {
      url := value;
    }

    /**
     * `handleSubmit`: forwards the URL, untrimmed, exactly when it holds a
     * non-whitespace character; otherwise forwards nothing.
     */
    method HandleSubmit() returns (forwarded: Option<string>)
      ensures forwarded.Some? <==> exists i :: 0 <= i < |url| && !IsWhitespace(url[i])
      ensures forwarded.Some? ==> forwarded.value == url
    {
      if Trim(url) != "" {
        forwarded := Some(url);
      } else {
        forwarded := None;
      }
    }
  }
}
