/** The drawing helpers of the interactive viewer (src/app.rs:27-210) and the
    dispatch over mark kinds in `App::update` (src/app.rs:240-276), with the
    egui calls replaced by an abstract list of drawing operations. Each helper
    returns its operations and the flag that tells `update` to end the layout
    row after the mark. Geometry (rects, spacing values, image size
    arithmetic on `f32`) is not modelled; image sizes stay symbolic. */
module Dispatch {
  import opened Wrappers
  import opened Document
  import Strings

  /** One `rich_text = rich_text.…;` assignment of `label`; the `H1` case is a
      single assignment that applies `heading()` and then `strong()`. */
  datatype RichStep = Strong | CodeStyle | Italics | Small | Strikethrough | Underline | HeadingStrong | HeadingOnly

  /** The place of a step in the fixed order in which `label` applies them. */
  function StepRank(s: RichStep): nat
  {
    match s
    case Strong => 0
    case CodeStyle => 1
    case Italics => 2
    case Small => 3
    case Strikethrough => 4
    case Underline => 5
    case HeadingStrong => 6
    case HeadingOnly => 7
  }

  /** Whether a style asks for a step. */
  predicate Requested(style: StyleText, s: RichStep)
  {
    match s
    case Strong => style.bold
    case CodeStyle => style.code
    case Italics => style.italics
    case Small => style.small
    case Strikethrough => style.strikethrough
    case Underline => style.underline
    case HeadingStrong => style.heading == H1
    case HeadingOnly => style.heading == H2
  }

  datatype Spacing = NormalSpacing | BigSpacing

  datatype Layout = LeftToRight | RightToLeft | CenteredJustified

  /** One side of an image box: the pixels the document gives, the texture's
      natural size, or the height scaled from the given width by the
      texture's aspect ratio. */
  datatype Extent = Given(px: nat) | NaturalSize | ScaledByAspect

  datatype Glyph = FilledCircle | StrokedCircle | FilledSquare | StrokedSquare

  datatype Op =
    | RichLabel(text: string, steps: seq<RichStep>)
    | HyperlinkTo(text: string, url: string)
    | CodeBox(code: string)
    | DrawImage(key: string, title: string, width: Extent, height: Extent, layout: Layout)
    | IndentBox(level: IndentLevel)
    | Bullet(level: IndentLevel, glyph: Glyph)
    | QuoteBar
    | Gap
    | Rule(dir: SeparatorDir)
    | SetSpacing(spacing: Spacing)

  /** What a helper draws, and whether the row ends after it. */
  datatype Drawn = Drawn(ops: seq<Op>, lineBreak: bool)

  /** Every step, in the order `label` tries them. */
  const StepOrder: seq<RichStep> := [Strong, CodeStyle, Italics, Small, Strikethrough, Underline, HeadingStrong, HeadingOnly]

  /** The steps from place `k` of the order on that `style` requests, in
      that order. */
  function RequestedFrom(style: StyleText, k: nat): seq<RichStep>
    requires k <= |StepOrder|
    decreases |StepOrder| - k
  {
    if k == |StepOrder| then []
    else if Requested(style, StepOrder[k]) then [StepOrder[k]] + RequestedFrom(style, k + 1)
    else RequestedFrom(style, k + 1)
  }

  /** Strictly increasing in rank: no step twice, none out of order. */
  predicate Ranked(steps: seq<RichStep>)
  {
    forall i, j :: 0 <= i < j < |steps| ==> StepRank(steps[i]) < StepRank(steps[j])
  }

  lemma OrderRank(k: nat)
    requires k < |StepOrder|
    ensures StepRank(StepOrder[k]) == k
  {
  }

  lemma RankOrder(t: RichStep)
    ensures StepRank(t) < |StepOrder| && StepOrder[StepRank(t)] == t
  {
  }

  lemma {:induction false} RequestedFromMembers(style: StyleText, k: nat)
    requires k <= |StepOrder|
    ensures forall s :: s in RequestedFrom(style, k) <==> Requested(style, s) && StepRank(s) >= k
    decreases |StepOrder| - k
  {
    if k < |StepOrder| {
      RequestedFromMembers(style, k + 1);
      OrderRank(k);
      forall t | StepRank(t) == k
        ensures t == StepOrder[k]
      {
        RankOrder(t);
      }
    }
  }

  lemma {:induction false} RequestedFromRanked(style: StyleText, k: nat)
    requires k <= |StepOrder|
    ensures Ranked(RequestedFrom(style, k))
    decreases |StepOrder| - k
  {
    if k < |StepOrder| {
      RequestedFromRanked(style, k + 1);
      RequestedFromMembers(style, k + 1);
      OrderRank(k);
      var rest := RequestedFrom(style, k + 1);
      if Requested(style, StepOrder[k]) {
        var steps := [StepOrder[k]] + rest;
        assert RequestedFrom(style, k) == steps;
        forall i, j | 0 <= i < j < |steps|
          ensures StepRank(steps[i]) < StepRank(steps[j])
        {
          assert steps[j] == rest[j - 1] && rest[j - 1] in rest;
          if i > 0 {
            assert steps[i] == rest[i - 1];
            assert StepRank(rest[i - 1]) < StepRank(rest[j - 1]);
          } else {
            assert steps[i] == StepOrder[k];
          }
        }
      } else {
        assert RequestedFrom(style, k) == rest;
      }
    }
  }

  /** The rich-text steps of `label` for a plain (non-hyperlink) text: each
      requested modifier once, in the fixed order bold, code, italics, small,
      strikethrough, underline, then the heading. */
  function LabelSteps(style: StyleText): seq<RichStep>
  {
    RequestedFrom(style, 0)
  }

  /** `label` applies exactly the requested modifiers, each once, in rank
      order. */
  lemma LabelStepsRequested(style: StyleText)
    ensures forall s :: s in LabelSteps(style) <==> Requested(style, s)
    ensures Ranked(LabelSteps(style))
  {
    var steps := RequestedFrom(style, 0);
    assert LabelSteps(style) == steps;
    RequestedFromMembers(style, 0);
    RequestedFromRanked(style, 0);
  }

  /** `label`: a hyperlink when the style has a target, otherwise a rich-text
      label; the row ends after it exactly for a heading. */
  function Label(text: string, style: StyleText): (r: Drawn)
    ensures r.lineBreak <==> style.hyperlink == [] && style.heading != NoHeading
    ensures style.hyperlink != [] ==> r.ops == [HyperlinkTo(text, style.hyperlink)]
    ensures style.hyperlink == [] ==> r.ops == [RichLabel(text, LabelSteps(style))]
  {
    if style.hyperlink == [] then
      Drawn([RichLabel(text, LabelSteps(style))], style.heading != NoHeading)
    else
      Drawn([HyperlinkTo(text, style.hyperlink)], false)
  }

  function CodeBlockOps(code: string): (r: Drawn)
    ensures r.lineBreak
  {
    Drawn([CodeBox(code)], true)
  }

  /** The box of an image: both sides given are used as they are, a given
      width alone scales the height, no width gives the natural size (a
      height given without a width is ignored). */
  function ImageWidth(style: StyleImage): (w: Extent)
    ensures style.width.Some? <==> w.Given?
    ensures w.Given? ==> w.px == style.width.value
    ensures style.width.None? ==> w == NaturalSize
  {
    if style.width.Some? then Given(style.width.value) else NaturalSize
  }

  function ImageHeight(style: StyleImage): (h: Extent)
    ensures style.width.Some? && style.height.Some? <==> h.Given?
    ensures h.Given? ==> h.px == style.height.value
    ensures h == ScaledByAspect <==> style.width.Some? && style.height.None?
    ensures style.width.None? ==> h == NaturalSize
  {
    match style.width
    case Some(_) => (if style.height.Some? then Given(style.height.value) else ScaledByAspect)
    case None => NaturalSize
  }

  function ImageLayout(align: AlignHorizontal): Layout
  {
    match align
    case Auto => LeftToRight
    case Left => LeftToRight
    case Right => RightToLeft
    case Center => CenteredJustified
  }

  function ImageOps(key: string, title: string, style: StyleImage): (r: Drawn)
    ensures r.lineBreak && |r.ops| == 1 && r.ops[0].DrawImage? && r.ops[0].key == key
  {
    Drawn([DrawImage(key, title, ImageWidth(style), ImageHeight(style), ImageLayout(style.alignH))], true)
  }

  function NewLineOps(): (r: Drawn)
    ensures r.lineBreak
  {
    Drawn([Gap], true)
  }

  function OrderedListing(n: u8, text: string, style: StyleText, level: IndentLevel): (r: Drawn)
    ensures r.lineBreak
  {
    Drawn([IndentBox(level), SetSpacing(BigSpacing)]
          + Label(Strings.NatToString(n as nat) + ".", style).ops
          + [SetSpacing(NormalSpacing)]
          + Label(text, style).ops,
          true)
  }

  function QuoteOps(text: string, style: StyleText): (r: Drawn)
    ensures r.lineBreak
  {
    Drawn([SetSpacing(BigSpacing), QuoteBar, SetSpacing(NormalSpacing)] + Label(text, style).ops, true)
  }

  function SeparatorOps(dir: SeparatorDir): (r: Drawn)
    ensures r.lineBreak
  {
    Drawn([Rule(dir)], true)
  }

  /** The bullet shape encodes the indent level. */
  function BulletGlyph(level: IndentLevel): Glyph
  {
    match level
    case NoIndent => FilledCircle
    case I1 => StrokedCircle
    case I2 => FilledSquare
    case I3 => StrokedSquare
  }

  function UnorderedListing(text: string, style: StyleText, level: IndentLevel): (r: Drawn)
    ensures r.lineBreak
  {
    Drawn([SetSpacing(BigSpacing), Bullet(level, BulletGlyph(level)), SetSpacing(NormalSpacing)]
          + Label(text, style).ops,
          true)
  }

  /** The kinds of marks after which the row ends, stated independently of
      the helpers: every block-like mark, a listing or quote line, and a
      heading that is not a hyperlink. */
  predicate BreaksLine(m: Mark)
  {
    match m
    case CodeBlock(_, _) => true
    case Image(_, _, _) => true
    case NewLine => true
    case Separator(_) => true
    case Text(_, s) => s.listing != NoListing || s.quote || (s.hyperlink == [] && s.heading != NoHeading)
    case Page(_) => false
    case Transition(_, _) => false
  }

  /** The dispatch over mark kinds inside `update`'s per-mark closure. */
  function DispatchMark(m: Mark): (r: Drawn)
    ensures r.lineBreak <==> BreaksLine(m)
    ensures m.Page? || m.Transition? ==> r == Drawn([], false)
  {
    match m
    case CodeBlock(code, _) => CodeBlockOps(code)
    case Image(key, title, style) => ImageOps(key, title, style)
    case NewLine => NewLineOps()
    case Separator(dir) => SeparatorOps(dir)
    case Text(text, style) =>
      (match style.listing
       case Ordered(n, level) => OrderedListing(n, text, style, level)
       case Unordered(level) => UnorderedListing(text, style, level)
       case NoListing => if !style.quote then Label(text, style) else QuoteOps(text, style))
    case Page(_) => Drawn([], false)
    case Transition(_, _) => Drawn([], false)
  }
}
