# Github-to-PPT, modelled in Dafny

Github-to-PPT turns a public GitHub repository into an investor pitch deck. The user types a
repository URL. The app fetches the repository's README from the raw-content host, trying the
`main` branch and then `master`. It sends the repository name and the first 20000 characters of
the README to a generative text model, which answers with a JSON deck. The app renumbers the
slide ids and shows the deck one slide at a time. On request, it generates a background image
per slide and exports the deck.

The model has one Dafny module per source file:

- `GithubService` parses the URL, picks the branch and fetches the README.
- `GeminiService` builds the prompt and the request and maps the model's reply. It also builds the
  image request and picks the image out of the image reply.
- `Types` holds the slide kinds and the deck records.
- `Slide` chooses the layout and the texts each layout shows.
- `InputSection` covers the URL form, its disabled states and the progress messages.
- `App` holds the generation status machine and the id renumbering.
- `PresentationView` covers navigation, the keyboard, the image cache with its in-flight guard, the
  title-image pre-generation and the export guard.

`Strings` models the JavaScript string operations the code relies on: `split`, `trim`, `replace`
with a one-character pattern, and decimal rendering in template strings. `Wrappers` holds
`Option` and `Result`.

The network (`fetch`), the text model, `JSON.parse` and the image model are parameters of the
operations that call them. Each asynchronous handler of the presentation view is split at its
`await` into a `Begin` step and a `Complete` step. This makes the in-flight and exporting flags
observable between them.

Two behaviours of the code are modelled as written:

- The title layout's subtitle reads `content.tagline`, which a slide never has, so the first bullet
  is always shown (`Slide.Subtitle`).
- The image guard is one flag for the whole view, not one per slide. The title pre-generation on
  mount neither checks nor sets that flag. A click on the first slide while the pre-generation is
  in flight therefore requests a second image, and the later completion overwrites the earlier one
  (`PresentationView.TitleImageRace`).

## Model

| member | source | states |
|---|---|---|
| Strings.Split | services/githubService.ts:11 | `split('/')` yields one more piece than there are separators, and no piece contains the separator |
| Strings.JoinSplit | services/githubService.ts:11 | joining the pieces of a split with the separator gives back the original string |
| Strings.SplitJoin | services/githubService.ts:11 | splitting a join of separator-free pieces gives back those pieces |
| Strings.Trim | components/InputSection.tsx:16 | `trim()` is empty exactly when every character is ECMAScript whitespace; otherwise it starts and ends with a non-whitespace character |
| Strings.TrimIsSlice | components/InputSection.tsx:16 | `trim()` is a slice of the string with nothing but ECMAScript whitespace before and after it |
| Strings.ReplaceFirst | components/Slide.tsx:141 | `replace('_', ' ')` keeps the length and changes nothing when `_` is absent |
| Strings.ReplaceFirstAt | components/Slide.tsx:141 | when `_` first occurs right after `p`, that occurrence becomes a space and everything before and after it is kept, later underscores included |
| Strings.NatToDecimal | App.tsx:37 | `${i}` renders a natural number as a non-empty string of decimal digits with no leading zero, except for `0` itself |
| Strings.DecimalUnique | App.tsx:37 | the rendering is the only digit string without a leading zero that denotes `n`, so `${i}` is fixed exactly |
| Strings.DecimalRoundTrip | App.tsx:37 | reading back the decimal rendering of `n` gives `n` |
| Strings.NatToDecimalInjective | App.tsx:37 | different numbers render differently |
| Types.SlideTypeFromName | types.ts:1-12 | the string value of a slide kind maps back to that kind and to no other; any other string maps to none |
| Types.SlideTypesEnumerated | types.ts:1-12 | there are exactly ten slide kinds, all listed, with pairwise distinct string values |
| GithubService.StripTrailingSlash | services/githubService.ts:10 | `replace(/\/$/, '')` removes one character exactly when the URL ends in `/`, and otherwise keeps the URL |
| GithubService.ParseRepoUrl | services/githubService.ts:10-16 | a URL is accepted exactly when its cleaned form has at least three `/` (four pieces); the owner and repository are slash-free and the cleaned URL ends with `/owner/repo` |
| GithubService.ParseRepoUrlUnique | services/githubService.ts:15-16 | the owner and repository are determined by the URL: any slash-free pair the cleaned URL ends with is the parsed pair |
| GithubService.BranchFallback | services/githubService.ts:19-34 | an unparseable URL requests nothing; `main` is requested first and wins on an ok response; on a non-ok response or a throw, `master` is requested and wins on an ok response; if both fail there is no README |
| GithubService.FetchRepoReadme | services/githubService.ts:4-39 | the loop over the branches returns the README and the requested URLs that the branch fallback describes, named after the repository |
| GeminiService.Truncate | services/geminiService.ts:18 | `substring(0, n)` is the prefix of length `min(|s|, n)`, and a string within the limit is kept whole |
| GeminiService.FillPrompt | services/geminiService.ts:11-40 | for any template, the filled prompt holds the repository name verbatim after the intro and the truncated README after the heading, so its length is bounded whatever the README's |
| GeminiService.DeckPromptRendersTemplate | services/geminiService.ts:15-18 | the request's two values (the name and the README cut to 20000 characters), rendered through any template, give exactly the text of that template filled with the name and the whole README |
| GeminiService.SchemaSlideTypes | services/geminiService.ts:59 | the schema's allowed `type` values are exactly the string values of the slide kinds |
| GeminiService.GeneratePitchDeck | services/geminiService.ts:42-82 | the deck is produced exactly when the call returns, its text is non-empty and it parses; the deck is the parsed text; every failure surfaces as the single generation-failure message |
| GeminiService.TruncationBoundary | services/geminiService.ts:18 | the outcome depends only on the first 20000 README characters: two READMEs that agree there give the same outcome |
| GeminiService.StyledPrompt | services/geminiService.ts:92 | the image prompt text starts with the style text and ends with `Context: ` followed by the slide's prompt, with nothing in between (its length is the sum of the three) |
| GeminiService.SlideImageRequest | services/geminiService.ts:88-100 | the image request asks for 16:9, and its text is the fixed style preamble directly followed by `Context: ` and the slide's prompt |
| GeminiService.FirstInlineIndex | services/geminiService.ts:102-106 | finds the first part carrying inline data, and finds none exactly when no part carries any |
| GeminiService.SlideImageSelection | services/geminiService.ts:85-112 | there is no image exactly when the call throws or no part of the first candidate carries inline data; otherwise the image is the PNG data-URI of the first such part |
| GeminiService.GenerateSlideImage | services/geminiService.ts:85-112 | the loop over the parts returns the image the selection describes, and it always carries the data-URI prefix |
| Slide.LayoutOf | components/Slide.tsx:15-70 | the title kind gets the title layout, Problem, Market and Vision get the emphasis layout, and every other kind gets the standard layout |
| Slide.IconOf | components/Slide.tsx:18-31 | the title and traction kinds, and only they, fall through to the default icon |
| Slide.SpecificIconsDistinct | components/Slide.tsx:20-28 | no two kinds share a specific icon |
| Slide.NumberFrom | components/Slide.tsx:155-162 | every bullet is kept, in order, numbered consecutively from the given start |
| Slide.Render | components/Slide.tsx:14-202 | the rendered layout is the kind's layout, and the title is the slide's title |
| Slide.TitleLayoutShows | components/Slide.tsx:37-57 | the title slide shows the first bullet as subtitle (none without bullets), and the image as background when there is one, else the gradient |
| Slide.ContentLayoutsShow | components/Slide.tsx:86-191 | the content layouts show every bullet in order, the standard layout numbering them from 1; the highlight shows exactly when non-empty, the emphasis layout quoting it and the standard layout showing it as it is; the picture area shows the image, else a caption quoting the visual prompt verbatim |
| Slide.KindLabels | components/Slide.tsx:78-141 | the emphasis label is the kind's value; the standard label replaces the first underscore with a space (`BUSINESS MODEL`) |
| InputSection.IsLoading | components/InputSection.tsx:21 | loading holds exactly in FETCHING_REPO, ANALYZING and GENERATING_DECK |
| InputSection.SubmitDisabled | components/InputSection.tsx:48-52 | the submit button is enabled exactly when the field is enabled (not loading) and the URL is non-empty |
| InputSection.ButtonCaption | components/InputSection.tsx:55 | the caption is "Processing..." exactly while the form is disabled by loading, and "Generate" otherwise |
| InputSection.ShowsErrorBox | components/InputSection.tsx:60-65 | the error box shows exactly for a present, non-empty message |
| InputSection.ProgressMessage | components/InputSection.tsx:67-78 | a progress message shows exactly while loading |
| InputSection.ProgressMessagesDistinct | components/InputSection.tsx:75-77 | each loading status has its own message |
| InputSection.InputForm.constructor | components/InputSection.tsx:12 | the field starts empty |
| InputSection.InputForm.OnChange | components/InputSection.tsx:47 | the typed text replaces the field's text |
| InputSection.InputForm.HandleSubmit | components/InputSection.tsx:14-19 | the URL is forwarded, untrimmed, exactly when it contains a non-whitespace character |
| App.ThrownMessage | App.tsx:44 | the shown message is the error's own message when non-empty, and otherwise the generic one; it is never empty |
| App.AssignSlideIds | App.tsx:37 | the same slides in the same order, slide `i` with id `slide-i` and every other field unchanged |
| App.SlideIdInjective | App.tsx:37 | different positions get different ids |
| App.AssignedIdsDistinct | App.tsx:37 | whatever ids the model returned, the assigned ids are pairwise distinct |
| App.AnalyzeOutcomes | App.tsx:13-46 | the analysis starts at FETCHING_REPO and ends in COMPLETED exactly when a deck is stored, otherwise in ERROR. A missing README gives ERROR with the README message. A failed generation passes through ANALYZING and GENERATING_DECK to ERROR with the failure message. A success stores the returned deck with renumbered ids |
| App.AnalyzeFollowsStatusMachine | App.tsx:13-52 | from any status in which the form accepts a submission, an analysis makes only permitted status changes and ends where the form accepts one again |
| App.App.constructor | App.tsx:9-11 | the app starts IDLE with no error and no deck |
| App.App.HandleAnalyze | App.tsx:13-46 | sets the statuses, error and deck that the analysis describes; on the error paths the stored deck is left as it was; afterwards the presentation shows exactly when the analysis produced a deck |
| App.AnalysisScreen | App.tsx:56-67 | after any analysis, whatever deck was stored before, the presentation replaces the form exactly when the analysis produced a deck; otherwise the form shows, with its error box exactly when the analysis ended in ERROR |
| App.App.ResetApp | App.tsx:48-56 | back to IDLE with no deck and no error, so the form is shown |
| PresentationView.NextIndex | components/PresentationView.tsx:21-23 | the index advances by one unless it is at the last slide, and stays within the deck |
| PresentationView.PrevIndex | components/PresentationView.tsx:25-27 | the index moves back by one unless it is at the first slide |
| PresentationView.NextThenPrev | components/PresentationView.tsx:21-27 | stepping forward then back returns to the same slide, except from the last slide |
| PresentationView.KeyCommandOf | components/PresentationView.tsx:29-33 | the right arrow goes forward, the left arrow goes back, Escape closes, and no other key does any of these |
| PresentationView.StoreImage | components/PresentationView.tsx:46-50 | a non-empty image is stored under its slide id, replacing any earlier one; an absent or empty image changes nothing; other slides keep their entries |
| PresentationView.PresentationView.constructor | components/PresentationView.tsx:14-17 | a session opens on the first slide with no images and nothing in flight |
| PresentationView.PresentationView.Position | components/PresentationView.tsx:97 | "Slide i of n" shows a position between 1 and n |
| PresentationView.PresentationView.NavigationButtons | components/PresentationView.tsx:142-149 | each navigation button is disabled exactly where its handler would do nothing |
| PresentationView.PresentationView.GenerateCaption | components/PresentationView.tsx:112 | "Generate Visual" shows exactly when the generate button is enabled |
| PresentationView.PresentationView.CurrentView | components/PresentationView.tsx:132-136 | the shown slide is the current slide rendered in its kind's layout with its title; a stored image is the title slide's backdrop or fills the picture area, and without one the gradient or the prompt placeholder shows |
| PresentationView.PresentationView.NextSlide | components/PresentationView.tsx:21-23 | advances the index as `NextIndex` says and keeps it within the deck |
| PresentationView.PresentationView.PrevSlide | components/PresentationView.tsx:25-27 | moves the index back as `PrevIndex` says and keeps it within the deck |
| PresentationView.PresentationView.HandleKeyDown | components/PresentationView.tsx:29-33 | the arrows navigate, Escape asks to close, and any other key leaves the index unchanged |
| PresentationView.PresentationView.BeginGenerateImage | components/PresentationView.tsx:40-45 | requests an image for the current slide, and sets the in-flight flag, exactly when the generate button is enabled |
| PresentationView.PresentationView.CompleteGenerateImage | components/PresentationView.tsx:45-54 | stores a non-empty result under the requested slide's id and always clears the in-flight flag |
| PresentationView.PresentationView.TitleImageRequest | components/PresentationView.tsx:58-60 | on mount, an image is requested for the first slide exactly when it has none |
| PresentationView.PresentationView.CompleteTitleImage | components/PresentationView.tsx:62-66 | stores a non-empty result under the first slide's id |
| PresentationView.PresentationView.BeginExport | components/PresentationView.tsx:72-78 | while an export runs, a second one does nothing; otherwise it hands over the deck and the images stored so far |
| PresentationView.PresentationView.FinishExport | components/PresentationView.tsx:79-84 | the exporting flag is always cleared, the failure alert shows exactly on failure, and the images and index are untouched |
| PresentationView.DoubleClickRequestsOnce | components/PresentationView.tsx:41-43 | two clicks before the first completes request at most one image |
| PresentationView.TitleImageRace | components/PresentationView.tsx:40-70 | the title pre-generation and a click on the first slide both request an image, and the later completion is kept |

## Left out

- The PPTX export itself (`generatePptx`, its slide geometry, and its generation of missing images) is not part of this model. Export is modelled only through its guard, the snapshot it receives, and the alert on failure.
- `JSON.parse` and the unchecked cast to the deck type are one parameter that yields a typed deck or nothing, so every stored deck is well typed. The source stores whatever parses, unchecked. A parsed value without a `slides` array makes the id renumbering throw a `TypeError`, whose message is shown. A slide without `bullets` is stored and throws only when rendered (components/Slide.tsx:56, 86, 155). A slide whose `type` is not one of the ten kinds is stored and drawn with the standard layout and the default icon. None of these decks can be represented here.
- The generative models, the network and the API key are parameters. Response bodies are strings, and a failure while reading a body counts as a thrown request.
- GeminiService.DeckRequest carries the two interpolated values (the repository name and the README excerpt), not the rendered prompt text. `FillPrompt` with `DeckPromptTemplate` renders them, and `DeckPromptRendersTemplate` shows that rendering them gives the source's prompt. A model that answered differently to two value pairs rendering to the same text is therefore expressible here, but not in the source.
- GithubService.FetchRepoReadme: the outer `catch` is never reached, because nothing before the loop can throw. The model therefore has no path for it.
- App.App.HandleAnalyze runs as one atomic step. The 800 ms delay between ANALYZING and GENERATING_DECK is a single transition. Interleavings of two analyses, and of a completion that arrives after the view is closed, are not modelled.
- PresentationView: completions arriving after the view has been closed are not modelled. The presentation view requires a non-empty deck; with an empty deck the source would crash reading the current slide.
- The `window` keydown listener's registration and removal are not modelled, and neither are the console logs.
- Styling, icons as images, animations and the decorative texts are not modelled. A view records only the content it shows.
- The browser's own form validation (`required`, `type="url"`) runs before `handleSubmit` and is not modelled.
- JavaScript strings are UTF-16 code units; here they are sequences of `char`. `substring(0, 20000)` counts characters of that sequence.
