/** The two backends compared: for every mark but an image without a
    width, the statements the generator emits are the drawing operations
    the interactive viewer performs, and the generated program's scene
    guards hide exactly the marks the viewer hides, with one divergence on
    pages whose largest order is 1. */
module Backends {
  import opened Wrappers
  import opened Document
  import D = Dispatch
  import B = Builder
  import BF = BuilderFacts
  import N = Navigation
  import V = Viewer
  import Strings
  import Seqs

  // ---------------------------------------------------------------------------
  // The statements that perform one drawing operation
  // ---------------------------------------------------------------------------

  function StepCode(s: D.RichStep): B.Fragment
  {
    match s
    case Strong => B.Fixed(B.RichStrong)
    case CodeStyle => B.Fixed(B.RichCode)
    case Italics => B.Fixed(B.RichItalics)
    case Small => B.Fixed(B.RichSmall)
    case Strikethrough => B.Fixed(B.RichStrikethrough)
    case Underline => B.Fixed(B.RichUnderline)
    case HeadingStrong => B.Fixed(B.RichHeadingStrong)
    case HeadingOnly => B.Fixed(B.RichHeading)
  }

  function StepsCode(steps: seq<D.RichStep>): seq<B.Fragment>
  {
    if steps == [] then [] else [StepCode(steps[0])] + StepsCode(steps[1..])
  }

  function LayoutCode(l: D.Layout): B.Fragment
  {
    match l
    case LeftToRight => B.Fixed(B.LeftToRight)
    case RightToLeft => B.Fixed(B.RightToLeft)
    case CenteredJustified => B.Fixed(B.Centered)
  }

  /** The declarations of an image box's two sides. */
  function ExtentCode(width: D.Extent, height: D.Extent): seq<B.Fragment>
  {
    (match width
     case Given(px) => [B.WidthPx(px)]
     case _ => [B.Fixed(B.NaturalWidth)])
    + (match height
       case Given(px) => [B.HeightPx(px)]
       case ScaledByAspect => [B.Fixed(B.ScaledHeight)]
       case NaturalSize => [B.Fixed(B.NaturalHeight)])
  }

  function GlyphCode(g: D.Glyph): B.Fragment
  {
    match g
    case FilledCircle => B.Fixed(B.FilledCircle)
    case StrokedCircle => B.Fixed(B.StrokedCircle)
    case FilledSquare => B.Fixed(B.FilledSquare)
    case StrokedSquare => B.Fixed(B.StrokedSquare)
  }

  function OpCode(op: D.Op): seq<B.Fragment>
  {
    match op
    case RichLabel(text, steps) => [B.RichTextNew(text)] + StepsCode(steps) + [B.Fixed(B.UiLabel)]
    case HyperlinkTo(text, url) => [B.Hyperlink(text, url)]
    case CodeBox(code) =>
      [B.Fixed(B.WhereToPutBackground), B.Monospace(code), B.Fixed(B.ExpandRect), B.Fixed(B.StretchRect),
       B.Fixed(B.CodeBgColor), B.Fixed(B.PainterSetOpen), B.Fixed(B.BackgroundArg), B.Fixed(B.RectFilledArg),
       B.Fixed(B.CloseCall)]
    case DrawImage(key, title, width, height, layout) =>
      [B.TextureGet(key)] + ExtentCode(width, height)
      + [LayoutCode(layout), B.Fixed(B.WithLayoutOpen), B.ImageCall(title), B.Fixed(B.CloseClosure)]
    case IndentBox(level) => [B.IndentCall(level)]
    case Bullet(level, glyph) =>
      [B.BulletRect(level), B.Fixed(B.MarkCenter), B.Fixed(B.MarkSize), B.Fixed(B.StrongColor), GlyphCode(glyph)]
    case QuoteBar =>
      [B.Fixed(B.QuoteAllocOpen), B.Fixed(B.GridSizeArg), B.Fixed(B.HoverArg), B.Fixed(B.CloseCall),
       B.Fixed(B.ExpandQuoteRect), B.Fixed(B.LineSegmentOpen), B.Fixed(B.QuoteEndsArg), B.Fixed(B.QuoteStrokeArg),
       B.Fixed(B.CloseCall)]
    case Gap => [B.Fixed(B.NewLineAlloc)]
    case Rule(dir) => if dir == Horizontal then [B.Fixed(B.HorizontalRule)] else [B.Fixed(B.VerticalRule)]
    case SetSpacing(s) => if s == D.BigSpacing then [B.Fixed(B.SpacingBig)] else [B.Fixed(B.SpacingNormal)]
  }

  function OpsCode(ops: seq<D.Op>): seq<B.Fragment>
    decreases |ops|
  {
    if ops == [] then [] else OpsCode(ops[..|ops| - 1]) + OpCode(ops[|ops| - 1])
  }

  lemma {:induction false} OpsCodeAppend(a: seq<D.Op>, b: seq<D.Op>)
    ensures OpsCode(a + b) == OpsCode(a) + OpsCode(b)
    decreases |b|
  {
    if b == [] {
      assert a + b == a;
    } else {
      var b' := b[..|b| - 1];
      assert (a + b)[..|a + b| - 1] == a + b';
      OpsCodeAppend(a, b');
      Seqs.AppendAssoc(OpsCode(a), OpsCode(b'), OpCode(b[|b| - 1]));
    }
  }

  lemma OpsCodeOne(op: D.Op)
    ensures OpsCode([op]) == OpCode(op)
  {
    assert [op][..0] == [];
  }

  // ---------------------------------------------------------------------------
  // Every mark: the same operations, the same line break
  // ---------------------------------------------------------------------------

  function Opt<T>(b: bool, x: T): seq<T>
  {
    if b then [x] else []
  }

  lemma StepsCodeCons(b: bool, x: D.RichStep, rest: seq<D.RichStep>)
    ensures StepsCode(Opt(b, x) + rest) == Opt(b, StepCode(x)) + StepsCode(rest)
  {
    if b {
      assert ([x] + rest)[1..] == rest;
    } else {
      assert [] + rest == rest;
    }
  }

  lemma Reassociate<T>(a: seq<T>, b: seq<T>, c: seq<T>, d: seq<T>, e: seq<T>, f: seq<T>, g: seq<T>)
    ensures a + (b + (c + (d + (e + (f + g))))) == a + b + c + d + e + f + g
  {
    Seqs.AppendAssoc(a + b + c + d + e, f, g);
    Seqs.AppendAssoc(a + b + c + d, e, f + g);
    Seqs.AppendAssoc(a + b + c, d, e + (f + g));
    Seqs.AppendAssoc(a + b, c, d + (e + (f + g)));
    Seqs.AppendAssoc(a, b, c + (d + (e + (f + g))));
  }

  /** The statements for the requested steps from place `k` of the order
      on, one optional statement per step. */
  function RequestedCode(style: StyleText, k: nat): seq<B.Fragment>
    requires k <= |D.StepOrder|
    decreases |D.StepOrder| - k
  {
    if k == |D.StepOrder| then []
    else Opt(D.Requested(style, D.StepOrder[k]), StepCode(D.StepOrder[k])) + RequestedCode(style, k + 1)
  }

  lemma {:induction false} RequestedCodeOfSteps(style: StyleText, k: nat)
    requires k <= |D.StepOrder|
    ensures StepsCode(D.RequestedFrom(style, k)) == RequestedCode(style, k)
    decreases |D.StepOrder| - k
  {
    if k < |D.StepOrder| {
      RequestedCodeOfSteps(style, k + 1);
      StepsCodeCons(D.Requested(style, D.StepOrder[k]), D.StepOrder[k], D.RequestedFrom(style, k + 1));
    }
  }

  lemma RequestedCodeSpelled(style: StyleText)
    ensures RequestedCode(style, 0) == Opt(style.bold, StepCode(D.Strong)) + (Opt(style.code, StepCode(D.CodeStyle))
      + (Opt(style.italics, StepCode(D.Italics)) + (Opt(style.small, StepCode(D.Small))
      + (Opt(style.strikethrough, StepCode(D.Strikethrough)) + (Opt(style.underline, StepCode(D.Underline))
      + (Opt(style.heading == H1, StepCode(D.HeadingStrong)) + (Opt(style.heading == H2, StepCode(D.HeadingOnly)) + [])))))))
  {
    assert RequestedCode(style, 8) == [];
    assert RequestedCode(style, 7) == Opt(style.heading == H2, StepCode(D.HeadingOnly)) + RequestedCode(style, 8) by {
      RequestedCodeUnfold(style, 7);
    }
    assert RequestedCode(style, 6) == Opt(style.heading == H1, StepCode(D.HeadingStrong)) + RequestedCode(style, 7) by {
      RequestedCodeUnfold(style, 6);
    }
    assert RequestedCode(style, 5) == Opt(style.underline, StepCode(D.Underline)) + RequestedCode(style, 6) by {
      RequestedCodeUnfold(style, 5);
    }
    assert RequestedCode(style, 4) == Opt(style.strikethrough, StepCode(D.Strikethrough)) + RequestedCode(style, 5) by {
      RequestedCodeUnfold(style, 4);
    }
    assert RequestedCode(style, 3) == Opt(style.small, StepCode(D.Small)) + RequestedCode(style, 4) by {
      RequestedCodeUnfold(style, 3);
    }
    assert RequestedCode(style, 2) == Opt(style.italics, StepCode(D.Italics)) + RequestedCode(style, 3) by {
      RequestedCodeUnfold(style, 2);
    }
    assert RequestedCode(style, 1) == Opt(style.code, StepCode(D.CodeStyle)) + RequestedCode(style, 2) by {
      RequestedCodeUnfold(style, 1);
    }
    assert RequestedCode(style, 0) == Opt(style.bold, StepCode(D.Strong)) + RequestedCode(style, 1) by {
      RequestedCodeUnfold(style, 0);
    }
  }

  lemma RequestedCodeUnfold(style: StyleText, k: nat)
    requires k < |D.StepOrder|
    ensures RequestedCode(style, k)
            == Opt(D.Requested(style, D.StepOrder[k]), StepCode(D.StepOrder[k])) + RequestedCode(style, k + 1)
  {
  }

  /** The builder's modifier statements are the viewer's rich-text steps, in
      the same order. */
  lemma ModifiersAgree(style: StyleText)
    ensures B.ModifierCode(style) == StepsCode(D.LabelSteps(style))
  {
    RequestedCodeOfSteps(style, 0);
    RequestedCodeSpelled(style);
    ModifierCodeSpelled(style);
    Reassociate(Opt(style.bold, StepCode(D.Strong)), Opt(style.code, StepCode(D.CodeStyle)),
                Opt(style.italics, StepCode(D.Italics)), Opt(style.small, StepCode(D.Small)),
                Opt(style.strikethrough, StepCode(D.Strikethrough)), Opt(style.underline, StepCode(D.Underline)),
                Opt(style.heading == H1, StepCode(D.HeadingStrong)) + (Opt(style.heading == H2, StepCode(D.HeadingOnly)) + []));
  }

  /** The builder's modifier statements as one optional statement per
      modifier. */
  lemma ModifierCodeSpelled(style: StyleText)
    ensures B.ModifierCode(style) ==
      Opt(style.bold, StepCode(D.Strong)) + Opt(style.code, StepCode(D.CodeStyle))
      + Opt(style.italics, StepCode(D.Italics)) + Opt(style.small, StepCode(D.Small))
      + Opt(style.strikethrough, StepCode(D.Strikethrough)) + Opt(style.underline, StepCode(D.Underline))
      + (Opt(style.heading == H1, StepCode(D.HeadingStrong)) + (Opt(style.heading == H2, StepCode(D.HeadingOnly)) + []))
  {
    HeadingCodeSpelled(style.heading);
  }

  lemma HeadingCodeSpelled(heading: Heading)
    ensures (match heading
             case H1 => [B.Fixed(B.RichHeadingStrong)]
             case H2 => [B.Fixed(B.RichHeading)]
             case _ => [])
            == Opt(heading == H1, StepCode(D.HeadingStrong)) + (Opt(heading == H2, StepCode(D.HeadingOnly)) + [])
  {
  }

  lemma LabelAgrees(text: string, style: StyleText)
    ensures B.LabelCode(text, style).frags == OpsCode(D.Label(text, style).ops)
    ensures B.LabelCode(text, style).lineBreak == D.Label(text, style).lineBreak
  {
    OpsCodeOne(D.Label(text, style).ops[0]);
    if style.hyperlink == [] {
      ModifiersAgree(style);
    }
  }

  lemma ImageAgrees(key: string, title: string, style: StyleImage)
    ensures B.ImageCode(key, title, style).frags == OpsCode(D.ImageOps(key, title, style).ops)
  {
    OpsCodeOne(D.ImageOps(key, title, style).ops[0]);
  }

  /** A listing or quote line: what comes before the label, the switch
      back to normal spacing, then the label. */
  lemma LineAgrees(head: seq<D.Op>, headCode: seq<B.Fragment>, labelOps: seq<D.Op>, labelCode: seq<B.Fragment>)
    requires OpsCode(head) == headCode && OpsCode(labelOps) == labelCode
    ensures OpsCode(head + [D.SetSpacing(D.NormalSpacing)] + labelOps) == headCode + [B.Fixed(B.SpacingNormal)] + labelCode
  {
    OpsCodeAppend(head + [D.SetSpacing(D.NormalSpacing)], labelOps);
    OpsCodeAppend(head, [D.SetSpacing(D.NormalSpacing)]);
    OpsCodeOne(D.SetSpacing(D.NormalSpacing));
  }

  lemma OpsCodePair(x: D.Op, y: D.Op)
    ensures OpsCode([x, y]) == OpCode(x) + OpCode(y)
  {
    assert [x, y] == [x] + [y];
    OpsCodeAppend([x], [y]);
    OpsCodeOne(x);
    OpsCodeOne(y);
  }

  lemma OrderedAgrees(n: u8, text: string, style: StyleText, level: IndentLevel)
    ensures B.OrderedListingCode(n, text, style, level).frags == OpsCode(D.OrderedListing(n, text, style, level).ops)
  {
    var num := Strings.NatToString(n as nat) + ".";
    IndentPairAgrees(level);
    LabelAgrees(num, style);
    LabelAgrees(text, style);
    NumberedLine([D.IndentBox(level), D.SetSpacing(D.BigSpacing)], [B.IndentCall(level), B.Fixed(B.SpacingBig)],
                 D.Label(num, style).ops, B.LabelCode(num, style).frags,
                 D.Label(text, style).ops, B.LabelCode(text, style).frags);
    OrderedShapes(n, text, style, level);
  }

  lemma IndentPairAgrees(level: IndentLevel)
    ensures OpsCode([D.IndentBox(level), D.SetSpacing(D.BigSpacing)]) == [B.IndentCall(level), B.Fixed(B.SpacingBig)]
  {
    OpsCodePair(D.IndentBox(level), D.SetSpacing(D.BigSpacing));
  }

  /** A numbered line: what comes before the number, the number, the switch
      back to normal spacing, then the label. */
  lemma NumberedLine(pair: seq<D.Op>, pairCode: seq<B.Fragment>, la: seq<D.Op>, ca: seq<B.Fragment>,
                     lb: seq<D.Op>, cb: seq<B.Fragment>)
    requires OpsCode(pair) == pairCode && OpsCode(la) == ca && OpsCode(lb) == cb
    ensures OpsCode(pair + la + [D.SetSpacing(D.NormalSpacing)] + lb) == pairCode + ca + [B.Fixed(B.SpacingNormal)] + cb
  {
    OpsCodeAppend(pair, la);
    LineAgrees(pair + la, pairCode + ca, lb, cb);
  }

  lemma OrderedShapes(n: u8, text: string, style: StyleText, level: IndentLevel)
    ensures var num := Strings.NatToString(n as nat) + ".";
      && D.OrderedListing(n, text, style, level).ops
         == [D.IndentBox(level), D.SetSpacing(D.BigSpacing)] + D.Label(num, style).ops
            + [D.SetSpacing(D.NormalSpacing)] + D.Label(text, style).ops
      && B.OrderedListingCode(n, text, style, level).frags
         == [B.IndentCall(level), B.Fixed(B.SpacingBig)] + B.LabelCode(num, style).frags
            + [B.Fixed(B.SpacingNormal)] + B.LabelCode(text, style).frags
  {
  }

  lemma QuoteAgrees(text: string, style: StyleText)
    ensures B.QuoteCode(text, style).frags == OpsCode(D.QuoteOps(text, style).ops)
  {
    var head := [D.SetSpacing(D.BigSpacing), D.QuoteBar];
    var la, ca := D.Label(text, style).ops, B.LabelCode(text, style).frags;
    LabelAgrees(text, style);
    OpsCodePair(D.SetSpacing(D.BigSpacing), D.QuoteBar);
    LineAgrees(head, [B.Fixed(B.SpacingBig)] + B.QuoteBarCode, la, ca);
    assert [D.SetSpacing(D.BigSpacing), D.QuoteBar, D.SetSpacing(D.NormalSpacing)] == head + [D.SetSpacing(D.NormalSpacing)];
  }

  /** The bullet the viewer paints is the one the generator spells out. */
  lemma BulletAgrees(level: IndentLevel)
    ensures OpCode(D.Bullet(level, D.BulletGlyph(level)))
            == [B.BulletRect(level), B.Fixed(B.MarkCenter), B.Fixed(B.MarkSize), B.Fixed(B.StrongColor), B.BulletShape(level)]
  {
  }

  lemma UnorderedAgrees(text: string, style: StyleText, level: IndentLevel)
    ensures B.UnorderedListingCode(text, style, level).frags == OpsCode(D.UnorderedListing(text, style, level).ops)
  {
    var big, normal := D.SetSpacing(D.BigSpacing), D.SetSpacing(D.NormalSpacing);
    var bullet := D.Bullet(level, D.BulletGlyph(level));
    var la, ca := D.Label(text, style).ops, B.LabelCode(text, style).frags;
    var c0, c1, c2, c3, c4, c5, c6 := B.Fixed(B.SpacingBig), B.BulletRect(level), B.Fixed(B.MarkCenter),
      B.Fixed(B.MarkSize), B.Fixed(B.StrongColor), B.BulletShape(level), B.Fixed(B.SpacingNormal);
    assert OpsCode([big, bullet]) == [c0, c1, c2, c3, c4, c5] by {
      OpsCodePair(big, bullet);
      BulletAgrees(level);
      SevenShape(c0, c1, c2, c3, c4, c5, c6, ca);
    }
    assert OpsCode(la) == ca by {
      LabelAgrees(text, style);
    }
    LineAgrees([big, bullet], [c0, c1, c2, c3, c4, c5], la, ca);
    ThreeShape(big, bullet, normal, la);
    SevenShape(c0, c1, c2, c3, c4, c5, c6, ca);
  }

  lemma ThreeShape<T>(a: T, b: T, c: T, rest: seq<T>)
    ensures [a, b, c] + rest == [a, b] + [c] + rest
  {
  }

  lemma SevenShape<T>(a: T, b: T, c: T, d: T, e: T, f: T, g: T, rest: seq<T>)
    ensures [a] + [b, c, d, e, f] == [a, b, c, d, e, f]
    ensures [a, b, c, d, e, f, g] + rest == [a, b, c, d, e, f] + [g] + rest
  {
  }

  /** The `height` declarations the generator as written leaves out of a
      mark's code: one for an image with no width. */
  function MissingHeight(m: Mark): nat
  {
    if B.LacksHeight(m) then 1 else 0
  }

  /** For every mark, the statements the generator emits perform the
      operations the viewer draws exactly when the mark is not an image
      without a width, where one declaration is missing; both end the row
      after exactly the same marks. */
  lemma MarkCodeAgrees(m: Mark)
    ensures B.MarkCode(m).frags == OpsCode(D.DispatchMark(m).ops) <==> !B.LacksHeight(m)
    ensures |OpsCode(D.DispatchMark(m).ops)| == |B.MarkCode(m).frags| + MissingHeight(m)
    ensures B.MarkCode(m).lineBreak == D.DispatchMark(m).lineBreak
    ensures B.MarkCode(m).lineBreak <==> D.BreaksLine(m)
  {
    match m
    case CodeBlock(code, _) => OpsCodeOne(D.CodeBox(code));
    case Image(key, title, style) => ImageMarkAgrees(key, title, style);
    case NewLine => OpsCodeOne(D.Gap);
    case Separator(dir) => OpsCodeOne(D.Rule(dir));
    case Text(text, style) => TextAgrees(text, style);
    case Page(_) =>
    case Transition(_, _) =>
  }

  lemma ImageMarkAgrees(key: string, title: string, style: StyleImage)
    ensures var m := Image(key, title, style);
      && (B.MarkCode(m).frags == OpsCode(D.DispatchMark(m).ops) <==> !B.LacksHeight(m))
      && |OpsCode(D.DispatchMark(m).ops)| == |B.MarkCode(m).frags| + MissingHeight(m)
      && B.MarkCode(m).lineBreak == D.DispatchMark(m).lineBreak
  {
    AsWrittenImageDisagrees(key, title, style);
  }

  /** With the missing declaration supplied, every mark's code performs
      the operations the viewer draws. */
  lemma CorrectedMarkCodeAgrees(m: Mark)
    ensures B.CorrectedMarkCode(m).frags == OpsCode(D.DispatchMark(m).ops)
    ensures B.CorrectedMarkCode(m).lineBreak == D.DispatchMark(m).lineBreak
  {
    if m.Image? {
      ImageAgrees(m.key, m.title, m.imageStyle);
    } else {
      MarkCodeAgrees(m);
    }
  }

  /** A text mark: a listing item, a quote or a plain label. */
  lemma TextAgrees(text: string, style: StyleText)
    ensures B.MarkCode(Text(text, style)).frags == OpsCode(D.DispatchMark(Text(text, style)).ops)
    ensures B.MarkCode(Text(text, style)).lineBreak == D.DispatchMark(Text(text, style)).lineBreak
  {
    match style.listing {
      case Ordered(n, level) => OrderedAgrees(n, text, style, level);
      case Unordered(level) => UnorderedAgrees(text, style, level);
      case NoListing =>
        if !style.quote {
          LabelAgrees(text, style);
        } else {
          QuoteAgrees(text, style);
        }
    }
  }

  /** The generator as written disagrees with the viewer exactly on images
      with no width. */
  lemma AsWrittenImageDisagrees(key: string, title: string, style: StyleImage)
    ensures B.ImageCodeAsWritten(key, title, style).frags == OpsCode(D.ImageOps(key, title, style).ops)
            <==> style.width.Some?
    ensures |OpsCode(D.ImageOps(key, title, style).ops)|
            == |B.ImageCodeAsWritten(key, title, style).frags| + (if style.width.None? then 1 else 0)
  {
    ImageAgrees(key, title, style);
    BF.ImageCorrectionOnlyWithoutWidth(key, title, style);
    if style.width.None? {
      assert |B.ImageCodeAsWritten(key, title, style).frags| != |B.ImageCode(key, title, style).frags|;
    }
  }

  // ---------------------------------------------------------------------------
  // The same slots, the same visibility
  // ---------------------------------------------------------------------------

  /** The statements of a viewer trace under a guard border. */
  function TraceCode(trace: seq<V.Instr>, border: nat): seq<B.Fragment>
    decreases |trace|
  {
    if trace == [] then []
    else
      var last := trace[|trace| - 1];
      TraceCode(trace[..|trace| - 1], border) + InstrCode(last, border)
  }

  function InstrCode(instr: V.Instr, border: nat): seq<B.Fragment>
  {
    match instr
    case HorizontalSlot(_, ops) => [B.Fixed(B.SlotOpen)] + B.TransitionGuard(border) + OpsCode(ops) + [B.Fixed(B.CloseClosure)]
    case EndRow => [B.Fixed(B.EndRowCall)]
  }

  lemma {:induction false} TraceCodeAppend(a: seq<V.Instr>, b: seq<V.Instr>, border: nat)
    ensures TraceCode(a + b, border) == TraceCode(a, border) + TraceCode(b, border)
    decreases |b|
  {
    if b == [] {
      assert a + b == a;
    } else {
      var b' := b[..|b| - 1];
      assert (a + b)[..|a + b| - 1] == a + b';
      TraceCodeAppend(a, b', border);
      Seqs.AppendAssoc(TraceCode(a, border), TraceCode(b', border), InstrCode(b[|b| - 1], border));
    }
  }

  /** A mark's slot code translates its slot in the viewer's trace exactly
      when the mark's own code does. */
  lemma SlotAgrees(m: Mark, border: nat, order: nat, step: nat)
    ensures B.SlotCode(m, border) == TraceCode(V.SlotTrace(m, order, step), border) <==> !B.LacksHeight(m)
    ensures |TraceCode(V.SlotTrace(m, order, step), border)| == |B.SlotCode(m, border)| + MissingHeight(m)
  {
    MarkCodeAgrees(m);
    var d, e := D.DispatchMark(m), B.MarkCode(m);
    var slot := V.HorizontalSlot(N.Revealed(order, step), d.ops);
    var code := [B.Fixed(B.SlotOpen)] + B.TransitionGuard(border) + OpsCode(d.ops) + [B.Fixed(B.CloseClosure)];
    var tail := if d.lineBreak then [B.Fixed(B.EndRowCall)] else [];
    assert TraceCode([slot], border) == code by {
      assert [slot][..0] == [];
    }
    assert TraceCode(V.SlotTrace(m, order, step), border) == code + tail by {
      if d.lineBreak {
        TraceCodeAppend([slot], [V.EndRow], border);
        assert TraceCode([V.EndRow], border) == [B.Fixed(B.EndRowCall)] by {
          assert [V.EndRow][..0] == [];
        }
      }
    }
    assert B.SlotCode(m, border) == [B.Fixed(B.SlotOpen)] + B.TransitionGuard(border) + e.frags + [B.Fixed(B.CloseClosure)] + tail;
  }

  /** The `height` declarations missing from the code of `marks`. */
  function MissingHeights(marks: seq<Mark>): nat
    decreases |marks|
  {
    if marks == [] then 0 else MissingHeights(marks[..|marks| - 1]) + MissingHeight(marks[|marks| - 1])
  }

  lemma {:induction false} MissingHeightsZero(marks: seq<Mark>)
    ensures MissingHeights(marks) == 0 <==> forall i :: 0 <= i < |marks| ==> !B.LacksHeight(marks[i])
    decreases |marks|
  {
    if marks != [] {
      var init := marks[..|marks| - 1];
      MissingHeightsZero(init);
      assert forall i :: 0 <= i < |init| ==> init[i] == marks[i];
    }
  }

  /** A transition's marks: the generator emits one slot statement group
      per slot of the viewer's trace, whatever the step, exactly when none
      of the marks is an image without a width; each such image leaves one
      declaration out. */
  lemma MarksCodeMatchesTrace(marks: seq<Mark>, border: nat, order: nat, step: nat)
    ensures B.MarksCode(marks, border) == TraceCode(V.MarksTrace(marks, order, step), border)
            <==> forall i :: 0 <= i < |marks| ==> !B.LacksHeight(marks[i])
    ensures |TraceCode(V.MarksTrace(marks, order, step), border)| == |B.MarksCode(marks, border)| + MissingHeights(marks)
  {
    MarksCodeLength(marks, border, order, step);
    MissingHeightsZero(marks);
  }

  lemma {:induction false} MarksCodeLength(marks: seq<Mark>, border: nat, order: nat, step: nat)
    ensures |TraceCode(V.MarksTrace(marks, order, step), border)| == |B.MarksCode(marks, border)| + MissingHeights(marks)
    ensures MissingHeights(marks) == 0 ==> B.MarksCode(marks, border) == TraceCode(V.MarksTrace(marks, order, step), border)
    decreases |marks|
  {
    if marks != [] {
      var init, last := marks[..|marks| - 1], marks[|marks| - 1];
      MarksCodeLength(init, border, order, step);
      SlotAgrees(last, border, order, step);
      TraceCodeAppend(V.MarksTrace(init, order, step), V.SlotTrace(last, order, step), border);
      Seqs.ConcatLonger(B.MarksCode(init, border), B.SlotCode(last, border),
                        TraceCode(V.MarksTrace(init, order, step), border), TraceCode(V.SlotTrace(last, order, step), border),
                        MissingHeights(init), MissingHeight(last));
    }
  }

  /** The guard border of a page's transition starting at scene `start`. */
  function Border(t: Mark, start: nat): nat
  {
    start + (if t.Transition? then t.order else 0)
  }

  /** The viewer's trace of a page's transitions, each transition's slots
      translated under that transition's guard border `start + order`. */
  function TransitionsTraceCode(transitions: seq<Mark>, start: nat, step: nat): seq<B.Fragment>
    decreases |transitions|
  {
    if transitions == [] then []
    else
      var t := transitions[|transitions| - 1];
      TransitionsTraceCode(transitions[..|transitions| - 1], start, step) + TraceCode(V.TransitionTrace(t, step), Border(t, start))
  }

  function TransitionMissingHeights(t: Mark): nat
  {
    if t.Transition? then MissingHeights(t.marks) else 0
  }

  /** The `height` declarations missing from the code of a page's transitions. */
  function TransitionsMissingHeights(transitions: seq<Mark>): nat
    decreases |transitions|
  {
    if transitions == [] then 0
    else TransitionsMissingHeights(transitions[..|transitions| - 1]) + TransitionMissingHeights(transitions[|transitions| - 1])
  }

  /** No image among a transition's marks lacks a width. */
  predicate TransitionDeclaresHeights(t: Mark)
  {
    t.Transition? ==> forall j :: 0 <= j < |t.marks| ==> !B.LacksHeight(t.marks[j])
  }

  lemma {:induction false} TransitionsMissingHeightsZero(transitions: seq<Mark>)
    ensures TransitionsMissingHeights(transitions) == 0
            <==> forall i :: 0 <= i < |transitions| ==> TransitionDeclaresHeights(transitions[i])
    decreases |transitions|
  {
    if transitions != [] {
      var init, t := transitions[..|transitions| - 1], transitions[|transitions| - 1];
      TransitionsMissingHeightsZero(init);
      if t.Transition? {
        MissingHeightsZero(t.marks);
      }
      assert forall i :: 0 <= i < |init| ==> init[i] == transitions[i];
    }
  }

  lemma {:induction false} TransitionsCodeLength(transitions: seq<Mark>, start: nat, step: nat)
    ensures |TransitionsTraceCode(transitions, start, step)| == |B.TransitionsCode(transitions, start)| + TransitionsMissingHeights(transitions)
    ensures TransitionsMissingHeights(transitions) == 0 ==> B.TransitionsCode(transitions, start) == TransitionsTraceCode(transitions, start, step)
    decreases |transitions|
  {
    if transitions != [] {
      var init, t := transitions[..|transitions| - 1], transitions[|transitions| - 1];
      TransitionsCodeLength(init, start, step);
      TransitionCodeLength(t, start, step);
      var a, b := B.TransitionsCode(init, start), B.TransitionCode(t, start);
      var c, d := TransitionsTraceCode(init, start, step), TraceCode(V.TransitionTrace(t, step), Border(t, start));
      var m, n := TransitionsMissingHeights(init), TransitionMissingHeights(t);
      Seqs.ConcatLonger(a, b, c, d, m, n);
      TransitionsUnfold(transitions, start, step);
      Seqs.LongerBySame(B.TransitionsCode(transitions, start), a + b, TransitionsTraceCode(transitions, start, step), c + d, m + n);
    }
  }

  lemma TransitionsUnfold(transitions: seq<Mark>, start: nat, step: nat)
    requires transitions != []
    ensures var init, t := transitions[..|transitions| - 1], transitions[|transitions| - 1];
      && B.TransitionsCode(transitions, start) == B.TransitionsCode(init, start) + B.TransitionCode(t, start)
      && TransitionsTraceCode(transitions, start, step)
         == TransitionsTraceCode(init, start, step) + TraceCode(V.TransitionTrace(t, step), Border(t, start))
      && TransitionsMissingHeights(transitions) == TransitionsMissingHeights(init) + TransitionMissingHeights(t)
  {
  }

  /** One transition of a page, under its border. */
  lemma TransitionCodeLength(t: Mark, start: nat, step: nat)
    ensures |TraceCode(V.TransitionTrace(t, step), Border(t, start))| == |B.TransitionCode(t, start)| + TransitionMissingHeights(t)
    ensures TransitionMissingHeights(t) == 0 ==> B.TransitionCode(t, start) == TraceCode(V.TransitionTrace(t, step), Border(t, start))
  {
    if t.Transition? {
      var order, marks := t.order, t.marks;
      assert Border(t, start) == start + order && TransitionMissingHeights(t) == MissingHeights(marks);
      TransitionCodeIsMarks(order, marks, start);
      TransitionTraceIsMarks(order, marks, step);
      MarksCodeLength(marks, start + order, order, step);
      Seqs.LongerBySame(B.TransitionCode(t, start), B.MarksCode(marks, start + order),
                        TraceCode(V.TransitionTrace(t, step), Border(t, start)),
                        TraceCode(V.MarksTrace(marks, order, step), start + order), TransitionMissingHeights(t));
    } else {
      assert V.TransitionTrace(t, step) == [] && B.TransitionCode(t, start) == [];
    }
  }

  lemma TransitionCodeIsMarks(order: nat, marks: seq<Mark>, start: nat)
    ensures B.TransitionCode(Transition(order, marks), start) == B.MarksCode(marks, start + order)
  {
  }

  lemma TransitionTraceIsMarks(order: nat, marks: seq<Mark>, step: nat)
    ensures V.TransitionTrace(Transition(order, marks), step) == V.MarksTrace(marks, order, step)
  {
  }

  /** A whole page: the generated block is the page's scene guard around
      the translation of the viewer's trace of the page at its step, exactly
      when no image of the page lacks a width. */
  lemma PageBlockMatchesTrace(e: PageEntry, start: nat)
    requires e.page.Page?
    ensures B.PageBlock(e, start)
            == [B.PageGuard(start, start + e.maxStep + 1)] + TransitionsTraceCode(e.page.transitions, start, e.step) + [B.Fixed(B.CloseBrace)]
            <==> TransitionsMissingHeights(e.page.transitions) == 0
    ensures TransitionsMissingHeights(e.page.transitions) == 0
            <==> forall i :: 0 <= i < |e.page.transitions| ==> TransitionDeclaresHeights(e.page.transitions[i])
  {
    var ts := e.page.transitions;
    TransitionsCodeLength(ts, start, e.step);
    TransitionsMissingHeightsZero(ts);
    var lhs := [B.PageGuard(start, start + e.maxStep + 1)] + B.TransitionsCode(ts, start) + [B.Fixed(B.CloseBrace)];
    var rhs := [B.PageGuard(start, start + e.maxStep + 1)] + TransitionsTraceCode(ts, start, e.step) + [B.Fixed(B.CloseBrace)];
    if lhs == rhs {
      assert |lhs| == |rhs|;
    }
  }

  /** On a page starting at scene `start`, a transition's guard hides its
      marks at the page's step `step` exactly when the viewer does not reveal
      them. */
  lemma GuardAgreesWithReveal(start: nat, order: nat, step: nat)
    ensures B.GuardHides(start + order, start + step) <==> !N.Revealed(order, step)
  {
  }

  /** Every slot of the viewer's trace for a transition is visible exactly
      when the generated guard lets its paint through at the matching scene. */
  lemma SlotVisibilityAgrees(marks: seq<Mark>, start: nat, order: nat, step: nat)
    ensures var trace := V.MarksTrace(marks, order, step);
            forall i :: 0 <= i < |trace| && trace[i].HorizontalSlot? ==>
              (trace[i].visible <==> !B.GuardHides(start + order, start + step))
  {
    V.MarksTraceSlots(marks, order, step);
  }

  /** The viewer standing on page `idx` at its step corresponds to scene
      `SceneStart(idx) + step` of the generated program, which lies in that
      page's interval and in no other page's. */
  lemma ViewerStateIsScene(s: N.Nav)
    requires N.WellFormed(s) && s.pages[s.idx].page.Page?
    ensures var e, start := s.pages[s.idx], B.SceneStart(s.pages, s.idx);
            && start <= start + e.step < start + e.maxStep + 1
            && start + e.step < B.SceneCount(s.pages)
            && forall j :: 0 <= j < |s.pages| && s.pages[j].page.Page?
                 && B.SceneStart(s.pages, j) <= start + e.step < B.SceneStart(s.pages, j) + s.pages[j].maxStep + 1
                 ==> j == s.idx
  {
    var e, start := s.pages[s.idx], B.SceneStart(s.pages, s.idx);
    assert N.StepOk(e);
    BF.SceneIntervalsBelowTotal(s.pages, s.idx);
    forall j | 0 <= j < |s.pages| && s.pages[j].page.Page?
                 && B.SceneStart(s.pages, j) <= start + e.step < B.SceneStart(s.pages, j) + s.pages[j].maxStep + 1
      ensures j == s.idx
    {
      BF.ScenePageUnique(s.pages, start + e.step, s.idx, j);
    }
  }

  /** On a page whose largest order is 1, the generated program has a
      second scene in which the order-1 marks are painted, while the viewer,
      from its initial state and whatever the input, never reveals them:
      `next` reveals steps only above a maximum of 1. */
  lemma MaxOnePageDiverges(s: N.Nav, acts: seq<N.Action>, j: nat)
    requires N.Initial(s) && j < |s.pages| && s.pages[j].page.Page? && s.pages[j].maxStep == 1
    ensures B.PageScenes(s.pages[j]) == 2
    ensures !B.GuardHides(B.SceneStart(s.pages, j) + 1, B.SceneStart(s.pages, j) + 1)
    ensures !N.Revealed(1, N.Run(s, acts).pages[j].step)
  {
    N.SmallPageNeverRevealed(s, acts, j, 1);
  }
}
