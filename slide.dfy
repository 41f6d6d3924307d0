/**
 * The stateless slide renderer (`Slide`): which of three layouts a slide kind
 * gets, and which texts and visuals each layout shows. A view records the
 * content a layout displays, not its styling.
 */
module Slide {
  import opened Wrappers
  import opened Strings
  import opened Types

  datatype Layout = TitleLayout | EmphasisLayout | StandardLayout

  /** The kinds drawn with the emphasis layout. */
  const EmphasisKinds: seq<SlideType> := [Problem, Market, Vision]

  /** The layout of a kind: the title kind, the three emphasis kinds, and the standard layout for the rest. */
  function LayoutOf(kind: SlideType): (layout: Layout)
    ensures layout == TitleLayout <==> kind == Title
    ensures layout == EmphasisLayout <==> kind == Problem || kind == Market || kind == Vision
  {
    if kind == Title then TitleLayout
    else if kind in EmphasisKinds then EmphasisLayout
    else StandardLayout
  }

  datatype Icon = AlertTriangle | CheckCircle | TrendingUp | Users | Target | Rocket | DollarSign | Layers | Zap

  /** `getIcon`: eight kinds have their own icon; the title and traction kinds fall through to the default. */
  function IconOf(kind: SlideType): (icon: Icon)
    ensures icon == Zap <==> kind == Title || kind == Traction
  {
    match kind
    case Problem => AlertTriangle
    case Solution => CheckCircle
    case Market => TrendingUp
    case Team => Users
    case Competition => Target
    case Vision => Rocket
    case BusinessModel => DollarSign
    case Product => Layers
    case _ => Zap
  }

  /** No two kinds share a specific icon. */
  lemma SpecificIconsDistinct(a: SlideType, b: SlideType)
    requires IconOf(a) == IconOf(b) && IconOf(a) != Zap
    ensures a == b
  {
  }

  /** What fills the title slide's background. */
  datatype Backdrop = BackgroundImage(src: string) | GradientFallback

  /** What fills the picture area of the other layouts: the image, or a caption quoting the visual prompt. */
  datatype Visual = ImagePanel(src: string) | PromptPlaceholder(caption: string)

  datatype NumberedBullet = NumberedBullet(number: nat, text: string)

  datatype SlideView =
    | TitleView(title: string, subtitle: Option<string>, backdrop: Backdrop)
    | EmphasisView(icon: Icon, kindLabel: string, title: string, bullets: seq<string>,
                   quote: Option<string>, visual: Visual)
    | StandardView(icon: Icon, kindLabel: string, title: string, items: seq<NumberedBullet>,
                   takeaway: Option<string>, visual: Visual)

  function LayoutOfView(view: SlideView): Layout
  {
    match view
    case TitleView(_, _, _) => TitleLayout
    case EmphasisView(_, _, _, _, _, _) => EmphasisLayout
    case StandardView(_, _, _, _, _, _) => StandardLayout
  }

  /** JavaScript truthiness of an optional string: present and non-empty. */
  predicate Truthy(s: Option<string>)
  {
    s.Some? && s.value != ""
  }

  predicate ContainsAt(s: string, part: string, k: nat)
  {
    k + |part| <= |s| && s[k..k + |part|] == part
  }

  ghost predicate Contains(s: string, part: string)
  {
    exists k: nat :: ContainsAt(s, part, k)
  }

  /** `bullets.map((b, idx) => ... idx + first ...)`: every bullet, in order, numbered from `first`. */
  function NumberFrom(bullets: seq<string>, first: nat): (items: seq<NumberedBullet>)
    ensures |items| == |bullets|
    ensures forall i :: 0 <= i < |items| ==> items[i] == NumberedBullet(first + i, bullets[i])
    decreases |bullets|
  {
    if |bullets| == 0 then []
    else [NumberedBullet(first, bullets[0])] + NumberFrom(bullets[1..], first + 1)
  }

  /** The title slide's subtitle: the slide's tagline, which a slide never has, else its first bullet. */
  function Subtitle(content: SlideContent): Option<string>
  {
    if |content.bullets| > 0 then Some(content.bullets[0]) else None
  }

  /** The picture area of the emphasis layout. */
  function EmphasisVisual(content: SlideContent, backgroundImage: Option<string>): Visual
  {
    if Truthy(backgroundImage) then ImagePanel(backgroundImage.value)
    else PromptPlaceholder("Prompt: " + content.visualPrompt)
  }

  /** The picture area of the standard layout. */
  function StandardVisual(content: SlideContent, backgroundImage: Option<string>): Visual
  {
    if Truthy(backgroundImage) then ImagePanel(backgroundImage.value)
    else PromptPlaceholder("\"" + content.visualPrompt + "\"")
  }

  /** `Slide`: the view of one slide, given the image generated for it, if any. */
  function Render(content: SlideContent, backgroundImage: Option<string>): (view: SlideView)
    ensures LayoutOfView(view) == LayoutOf(content.kind)
    ensures view.title == content.title
  {
    match LayoutOf(content.kind)
    case TitleLayout =>
      TitleView(
        content.title,
        Subtitle(content),
        if Truthy(backgroundImage) then BackgroundImage(backgroundImage.value) else GradientFallback)
    case EmphasisLayout =>
      EmphasisView(
        IconOf(content.kind),
        Name(content.kind),
        content.title,
        content.bullets,
        if Truthy(content.highlight) then Some("\"" + content.highlight.value + "\"") else None,
        EmphasisVisual(content, backgroundImage))
    case StandardLayout =>
      StandardView(
        IconOf(content.kind),
        ReplaceFirst(Name(content.kind), '_', ' '),
        content.title,
        NumberFrom(content.bullets, 1),
        if Truthy(content.highlight) then content.highlight else None,
        StandardVisual(content, backgroundImage))
  }

  /** The title layout shows the first bullet as subtitle, and the image as background when there is one. */
  lemma TitleLayoutShows(content: SlideContent, backgroundImage: Option<string>)
    requires content.kind == Title
    ensures var view := Render(content, backgroundImage);
      && view.TitleView?
      && (|content.bullets| > 0 ==> view.subtitle == Some(content.bullets[0]))
      && (|content.bullets| == 0 ==> view.subtitle.None?)
      && (Truthy(backgroundImage) ==> view.backdrop == BackgroundImage(backgroundImage.value))
      && (!Truthy(backgroundImage) ==> view.backdrop == GradientFallback)
  {
  }

  /**
   * Both non-title layouts show every bullet in its original order (the standard
   * layout numbering them 1 to n), show the highlight exactly when it is present
   * and non-empty, and show the image when there is one and otherwise a
   * placeholder quoting the visual prompt verbatim.
   */
  lemma ContentLayoutsShow(content: SlideContent, backgroundImage: Option<string>)
    requires content.kind != Title
    ensures var view := Render(content, backgroundImage);
      && (view.EmphasisView? ==> view.bullets == content.bullets)
      && (view.StandardView? ==>
            |view.items| == |content.bullets|
            && forall i :: 0 <= i < |view.items| ==> view.items[i] == NumberedBullet(i + 1, content.bullets[i]))
      && (view.EmphasisView? ==> (view.quote.Some? <==> Truthy(content.highlight)))
      && (view.EmphasisView? && Truthy(content.highlight) ==> Contains(view.quote.value, content.highlight.value))
      && (view.StandardView? ==> (view.takeaway.Some? <==> Truthy(content.highlight)))
      && (view.StandardView? && Truthy(content.highlight) ==> view.takeaway == content.highlight)
      && (!view.TitleView? && Truthy(backgroundImage) ==> view.visual == ImagePanel(backgroundImage.value))
      && (!view.TitleView? && !Truthy(backgroundImage) ==>
            view.visual.PromptPlaceholder? && Contains(view.visual.caption, content.visualPrompt))
  {
    var view := Render(content, backgroundImage);
    if view.EmphasisView? && Truthy(content.highlight) {
      var h := content.highlight.value;
      assert ContainsAt("\"" + h + "\"", h, 1);
    }
    if !Truthy(backgroundImage) {
      var vp := content.visualPrompt;
      if view.EmphasisView? {
        assert ContainsAt("Prompt: " + vp, vp, 8);
      } else {
        assert ContainsAt("\"" + vp + "\"", vp, 1);
      }
    }
  }

  /**
   * The kind label: the emphasis layout shows the kind's name as it is; the
   * standard layout shows it with its first underscore replaced by a space,
   * which changes only `BUSINESS_MODEL`.
   */
  lemma KindLabels(content: SlideContent, backgroundImage: Option<string>)
    ensures var view := Render(content, backgroundImage);
      && (view.EmphasisView? ==> view.kindLabel == Name(content.kind))
      && (view.StandardView? && content.kind != BusinessModel ==> view.kindLabel == Name(content.kind))
      && (view.StandardView? && content.kind == BusinessModel ==> view.kindLabel == "BUSINESS MODEL")
  {
    if content.kind == BusinessModel {
      BusinessModelLabel();
    } else {
      assert '_' !in Name(content.kind);
    }
  }

  lemma BusinessModelLabel()
    ensures ReplaceFirst(Name(BusinessModel), '_', ' ') == "BUSINESS MODEL"
  {
    var first, second := "BUSINESS", "MODEL";
    assert '_' !in first;
    ReplaceFirstAt(first, '_', ' ', second);
    assert Name(BusinessModel) == first + ['_'] + second;
  }
}
