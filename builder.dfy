/** The standalone code generator of src/builder.rs: the emitters that append
    the Rust source of one mark to the code buffer (each returning the
    line-break flag), the `update` body that flattens every (page, step)
    pair into one linear `scene_idx`, the `setup` body that embeds every
    distinct image once, the `[[[token]]]` template substitution, and the
    concatenation that makes the generated `main.rs`.

    The code buffer is modelled as the sequence of fragments pushed onto it,
    one `Fragment` per `push_str` of the source; `Render` gives the text of
    a buffer, the concatenation of the fragments' exact texts. An emitter is
    a function giving the fragments it pushes and its flag; the loops that
    drive the emitters are methods proved equal to the functions that
    specify them. */
module Builder {
  import opened Wrappers
  import opened Document
  import opened Strings
  import opened Seqs

  /** A `push_str` of a fixed statement (or fixed part of one). */
  datatype Stmt =
    // code_block
    | WhereToPutBackground | ExpandRect | StretchRect | CodeBgColor
    | PainterSetOpen | BackgroundArg | RectFilledArg | CloseCall
    // image
    | ScaledHeight | NaturalWidth | NaturalHeight
    | LeftToRight | RightToLeft | Centered | WithLayoutOpen | CloseClosure
    // label
    | RichStrong | RichCode | RichItalics | RichSmall | RichStrikethrough | RichUnderline | RichHeadingStrong | RichHeading
    | UiLabel
    // line_break, new_line, spacing
    | EndRowCall | NewLineAlloc | SpacingBig | SpacingNormal
    // quote
    | QuoteAllocOpen | GridSizeArg | HoverArg | ExpandQuoteRect | LineSegmentOpen | QuoteEndsArg | QuoteStrokeArg
    // seperator
    | HorizontalRule | VerticalRule
    // transition
    | HideCall | CloseBrace
    // unordered_listing
    | MarkCenter | MarkSize | StrongColor | FilledCircle | StrokedCircle | FilledSquare | StrokedSquare
    // generate_code_update, generate_code_setup
    | SlotOpen | LoadTexture

  /** One `push_str` of the generator: a fixed statement, a `format!`ed one
      with its parameters, or a template fragment pushed as it is. */
  datatype Fragment =
    | Fixed(stmt: Stmt)
    | Monospace(code: string)
    | TextureGet(key: string) | WidthPx(w: nat) | HeightPx(h: nat) | ImageCall(title: string)
    | IndentCall(level: IndentLevel)
    | RichTextNew(text: string) | Hyperlink(text: string, url: string)
    | HideBelow(border: nat)
    | BulletRect(level: IndentLevel)
    | PageGuard(start: nat, end: nat)
    | IncludeBytes(path: string) | InsertTexture(key: string)
    | Raw(text: string)

  /** A string inlined between double quotes, with no escaping. */
  function Quoted(s: string): string
  {
    "\"" + s + "\""
  }

  /** `{}.0` applied to a whole number: an `f32` literal. */
  function PixelLiteral(n: nat): string
  {
    NatToString(n) + ".0"
  }

  /** The exact text of each fixed statement. */
  function StmtText(s: Stmt): string
  {
    match s
    case WhereToPutBackground => "let where_to_put_background = ui.painter().add(egui::Shape::Noop);"
    case ExpandRect => "rect = rect.expand(NORMAL_SPACING_X);"
    case StretchRect => "rect.max.x = ui.max_rect().max.x;"
    case CodeBgColor => "let code_bg_color = ui.visuals().code_bg_color;"
    case PainterSetOpen => "ui.painter().set("
    case BackgroundArg => "where_to_put_background,"
    case RectFilledArg => "egui::Shape::rect_filled(rect, 2.0, code_bg_color),"
    case CloseCall => ");"
    case ScaledHeight => "let height = " + "width / texture.size.x * texture.size.y;"
    case NaturalWidth => "let width = " + "texture.size.x;"
    case NaturalHeight => "let height = " + "texture.size.y;"
    case LeftToRight => "let layout = egui::Layout::left_to_right();"
    case RightToLeft => "let layout = egui::Layout::right_to_left();"
    case Centered => "let layout = egui::Layout::centered_and_justified(egui::Direction::LeftToRight);"
    case WithLayoutOpen => "ui.with_layout(layout, |ui| {"
    case CloseClosure => "});"
    case RichStrong => "let rich_text = rich_text.strong();"
    case RichCode => "let rich_text = rich_text.code();"
    case RichItalics => "let rich_text = rich_text.italics();"
    case RichSmall => "let rich_text = rich_text.small();"
    case RichStrikethrough => "let rich_text = rich_text.strikethrough();"
    case RichUnderline => "let rich_text = rich_text.underline();"
    case RichHeadingStrong => "let rich_text = rich_text.heading().strong();"
    case RichHeading => "let rich_text = rich_text.heading();"
    case UiLabel => "ui.label(rich_text);"
    case EndRowCall => "outer_ui.end_row();"
    case NewLineAlloc => "ui.allocate_exact_size(egui::vec2(0.0, NEW_LINE_HEIGHT), egui::Sense::hover());"
    case SpacingBig => "ui.spacing_mut().item_spacing.x = BIG_SPACING_X;"
    case SpacingNormal => "ui.spacing_mut().item_spacing.x = NORMAL_SPACING_X;"
    case QuoteAllocOpen => "let (rect, _) = ui.allocate_exact_size("
    case GridSizeArg => "egui::vec2(INDENT_GRID_SIZE, INDENT_GRID_SIZE),"
    case HoverArg => "egui::Sense::hover(),"
    case ExpandQuoteRect => "let rect = rect.expand2(ui.style().spacing.item_spacing * 0.5);"
    case LineSegmentOpen => "ui.painter().line_segment("
    case QuoteEndsArg => "[rect.center_top(), rect.center_bottom()],"
    case QuoteStrokeArg => "(1.0, ui.visuals().weak_text_color()),"
    case HorizontalRule => "ui.add(egui::Separator::default().horizontal());"
    case VerticalRule => "ui.separator();"
    case HideCall => "ui.set_visible(false);"
    case CloseBrace => "}"
    case MarkCenter => "let mark_center = egui::Pos2::new(rect.right(), rect.center().y);"
    case MarkSize => "let mark_size = 4.0;"
    case StrongColor => "let color = ui.visuals().strong_text_color();"
    case FilledCircle => "ui.painter().circle_filled(mark_center, mark_size / 2.0, color);"
    case StrokedCircle => "ui.painter().circle_stroke(mark_center, mark_size / 2.0, egui::Stroke::new(0.5, color));"
    case FilledSquare => "ui.painter().rect_filled(egui::Rect::from_center_size(mark_center, egui::vec2(mark_size, mark_size)), 0.0, color);"
    case StrokedSquare => "ui.painter().rect_stroke(egui::Rect::from_center_size(mark_center, egui::vec2(mark_size, mark_size)), 0.0, egui::Stroke::new(0.5, color));"
    case SlotOpen => "outer_ui.horizontal(|ui| {"
    case LoadTexture => "let texture = load_texture(image_data, frame).expect(\"Failed to load texture\");"
  }

  /** The exact text each fragment pushes. */
  function FragmentText(f: Fragment): string
  {
    match f
    case Fixed(s) => StmtText(s)
    case Monospace(code) => "let mut rect = ui.monospace(" + Quoted(code) + ").rect;"
    case TextureGet(key) => "let texture = self.textures.get(&" + Quoted(key) + ".to_string()).unwrap();"
    case WidthPx(w) => "let width = " + PixelLiteral(w) + ";"
    case HeightPx(h) => "let height = " + PixelLiteral(h) + ";"
    case ImageCall(title) => "ui.image(texture.id, egui::Vec2::new(width, height)).on_hover_text(" + Quoted(title) + ");"
    case IndentCall(level) => "indent(" + PixelLiteral(IndentInt(level)) + ", ui);"
    case RichTextNew(text) => "let rich_text = egui::RichText::new(" + Quoted(text) + ");"
    case Hyperlink(text, url) => "ui.hyperlink_to(" + Quoted(text) + ", " + Quoted(url) + ");"
    case HideBelow(border) => "if self.scene_idx < " + NatToString(border) + " {"
    case BulletRect(level) => "let rect = indent(" + PixelLiteral(IndentInt(level)) + ", ui);"
    case PageGuard(start, end) => "if self.scene_idx >= " + NatToString(start) + " && self.scene_idx < " + NatToString(end) + " {"
    case IncludeBytes(path) => "let image_data = include_bytes!(" + Quoted(path) + ");"
    case InsertTexture(key) => "self.textures.insert(" + Quoted(key) + ".to_string(), texture);"
    case Raw(text) => text
  }

  /** The text of a buffer: its fragments' texts in push order. */
  function Render(buffer: seq<Fragment>): string
    decreases |buffer|
  {
    if buffer == [] then "" else Render(buffer[..|buffer| - 1]) + FragmentText(buffer[|buffer| - 1])
  }

  /** The template fragments of the `templates` module, taken as given
      strings (that module is not part of this model). */
  datatype Templates = Templates(imports: string, app1: string, app2: string, app3: string, main: string)

  /** What an emitter pushes, and the flag it returns. */
  datatype Emitted = Emitted(frags: seq<Fragment>, lineBreak: bool)

  // ---------------------------------------------------------------------------
  // The emitters (src/builder.rs:22-241)
  // ---------------------------------------------------------------------------

  function CodeBlockCode(code: string): Emitted
  {
    Emitted([Fixed(WhereToPutBackground), Monospace(code), Fixed(ExpandRect), Fixed(StretchRect), Fixed(CodeBgColor),
             Fixed(PainterSetOpen), Fixed(BackgroundArg), Fixed(RectFilledArg), Fixed(CloseCall)],
            true)
  }

  /** The `width`/`height` declarations of `image` as written: with no
      width, only `width` is declared. */
  function SizeDeclsAsWritten(style: StyleImage): seq<Fragment>
  {
    match style.width
    case Some(w) => [WidthPx(w)] + (match style.height case Some(h) => [HeightPx(h)] case None => [Fixed(ScaledHeight)])
    case None => [Fixed(NaturalWidth)]
  }

  /** The declarations matching what the interactive viewer draws
      (src/app.rs:41-51): with no width, the natural width and height. */
  function SizeDecls(style: StyleImage): seq<Fragment>
  {
    match style.width
    case Some(w) => [WidthPx(w)] + (match style.height case Some(h) => [HeightPx(h)] case None => [Fixed(ScaledHeight)])
    case None => [Fixed(NaturalWidth), Fixed(NaturalHeight)]
  }

  function LayoutDecl(align: AlignHorizontal): Fragment
  {
    match align
    case Auto => Fixed(LeftToRight)
    case Left => Fixed(LeftToRight)
    case Right => Fixed(RightToLeft)
    case Center => Fixed(Centered)
  }

  /** `image` as written. */
  function ImageCodeAsWritten(key: string, title: string, style: StyleImage): Emitted
  {
    Emitted([TextureGet(key)] + SizeDeclsAsWritten(style)
            + [LayoutDecl(style.alignH), Fixed(WithLayoutOpen), ImageCall(title), Fixed(CloseClosure)],
            true)
  }

  /** `image` with the missing `height` declaration supplied, as the
      viewer draws it; `CorrectedMarkCode` dispatches to it. */
  function ImageCode(key: string, title: string, style: StyleImage): Emitted
  {
    Emitted([TextureGet(key)] + SizeDecls(style)
            + [LayoutDecl(style.alignH), Fixed(WithLayoutOpen), ImageCall(title), Fixed(CloseClosure)],
            true)
  }

  /** The modifiers of `label`, one `if` after another, then the heading. */
  function ModifierCode(style: StyleText): seq<Fragment>
  {
    (if style.bold then [Fixed(RichStrong)] else [])
    + (if style.code then [Fixed(RichCode)] else [])
    + (if style.italics then [Fixed(RichItalics)] else [])
    + (if style.small then [Fixed(RichSmall)] else [])
    + (if style.strikethrough then [Fixed(RichStrikethrough)] else [])
    + (if style.underline then [Fixed(RichUnderline)] else [])
    + (match style.heading
       case H1 => [Fixed(RichHeadingStrong)]
       case H2 => [Fixed(RichHeading)]
       case _ => [])
  }

  function LabelCode(text: string, style: StyleText): Emitted
  {
    if style.hyperlink == [] then
      Emitted([RichTextNew(text)] + ModifierCode(style) + [Fixed(UiLabel)], style.heading != NoHeading)
    else
      Emitted([Hyperlink(text, style.hyperlink)], false)
  }

  function NewLineCode(): Emitted
  {
    Emitted([Fixed(NewLineAlloc)], true)
  }

  /** `ordered_listing`: the flags of its two labels are dropped. */
  function OrderedListingCode(n: u8, text: string, style: StyleText, level: IndentLevel): Emitted
  {
    Emitted([IndentCall(level), Fixed(SpacingBig)]
            + LabelCode(NatToString(n as nat) + ".", style).frags
            + [Fixed(SpacingNormal)]
            + LabelCode(text, style).frags,
            true)
  }

  const QuoteBarCode: seq<Fragment> :=
    [Fixed(QuoteAllocOpen), Fixed(GridSizeArg), Fixed(HoverArg), Fixed(CloseCall), Fixed(ExpandQuoteRect),
     Fixed(LineSegmentOpen), Fixed(QuoteEndsArg), Fixed(QuoteStrokeArg), Fixed(CloseCall)]

  function QuoteCode(text: string, style: StyleText): Emitted
  {
    Emitted([Fixed(SpacingBig)] + QuoteBarCode + [Fixed(SpacingNormal)] + LabelCode(text, style).frags, true)
  }

  function SeparatorCode(dir: SeparatorDir): Emitted
  {
    match dir
    case Horizontal => Emitted([Fixed(HorizontalRule)], true)
    case Vertical => Emitted([Fixed(VerticalRule)], true)
  }

  function BulletShape(level: IndentLevel): Fragment
  {
    match level
    case NoIndent => Fixed(FilledCircle)
    case I1 => Fixed(StrokedCircle)
    case I2 => Fixed(FilledSquare)
    case I3 => Fixed(StrokedSquare)
  }

  function UnorderedListingCode(text: string, style: StyleText, level: IndentLevel): Emitted
  {
    Emitted([Fixed(SpacingBig), BulletRect(level), Fixed(MarkCenter), Fixed(MarkSize), Fixed(StrongColor), BulletShape(level), Fixed(SpacingNormal)]
            + LabelCode(text, style).frags,
            true)
  }

  /** `transition`: the statements that hide a slot's paint while the scene
      is below `border`; nothing for border 0. */
  function TransitionGuard(border: nat): seq<Fragment>
  {
    if border > 0 then [HideBelow(border), Fixed(HideCall), Fixed(CloseBrace)] else []
  }

  /** What the emitted guard does when the generated program runs at scene
      `scene`: it hides the slot's paint exactly when it was emitted and
      the scene is below its border. */
  predicate GuardHides(border: nat, scene: nat)
  {
    TransitionGuard(border) != [] && scene < border
  }

  /** The dispatch inside `generate_code_update`'s mark loop. */
  function MarkCode(m: Mark): Emitted
  {
    match m
    case CodeBlock(code, _) => CodeBlockCode(code)
    case Image(key, title, style) => ImageCodeAsWritten(key, title, style)
    case NewLine => NewLineCode()
    case Separator(dir) => SeparatorCode(dir)
    case Text(text, style) =>
      (match style.listing
       case Ordered(n, level) => OrderedListingCode(n, text, style, level)
       case Unordered(level) => UnorderedListingCode(text, style, level)
       case NoListing => if !style.quote then LabelCode(text, style) else QuoteCode(text, style))
    case Page(_) => Emitted([], false)
    case Transition(_, _) => Emitted([], false)
  }

  /** A mark whose code as written uses a `height` it never declares: an
      image with no width. */
  predicate LacksHeight(m: Mark)
  {
    m.Image? && m.imageStyle.width.None?
  }

  /** The dispatch with the corrected image emitter. */
  function CorrectedMarkCode(m: Mark): (r: Emitted)
    ensures !LacksHeight(m) ==> r == MarkCode(m)
  {
    if m.Image? then ImageCode(m.key, m.title, m.imageStyle) else MarkCode(m)
  }

  /** One mark's slot: the wrapper, the guard, the mark's code, and
      `line_break` when its emitter asks for it. */
  function SlotCode(m: Mark, border: nat): seq<Fragment>
  {
    SlotWrap(MarkCode(m), border)
  }

  function SlotWrap(e: Emitted, border: nat): seq<Fragment>
  {
    [Fixed(SlotOpen)] + TransitionGuard(border) + e.frags + [Fixed(CloseClosure)] + (if e.lineBreak then [Fixed(EndRowCall)] else [])
  }

  // ---------------------------------------------------------------------------
  // `replace_str` (src/builder.rs:184-186)
  // ---------------------------------------------------------------------------

  function Marker(token: string): (r: string)
    ensures |r| == |token| + 6
  {
    "[[[" + token + "]]]"
  }

  /** `replace_str`: every `[[[from]]]` replaced by `to`. */
  function ReplaceStr(src: string, from: string, to: string): string
  {
    ReplaceAll(src, Marker(from), to)
  }

  // ---------------------------------------------------------------------------
  // `generate_code_update` (src/builder.rs:355-417)
  // ---------------------------------------------------------------------------

  /** The scenes of one entry: `max_transition_idx + 1` for a page, none
      for anything else. */
  function PageScenes(e: PageEntry): nat
  {
    if e.page.Page? then e.maxStep + 1 else 0
  }

  /** The value of `max_scene_idx` after the entries `pages`. */
  function SceneCount(pages: seq<PageEntry>): nat
    decreases |pages|
  {
    if pages == [] then 0
    else SceneCount(pages[..|pages| - 1]) + PageScenes(pages[|pages| - 1])
  }

  /** The first scene of entry `i`: the scenes of all the entries before it. */
  function SceneStart(pages: seq<PageEntry>, i: nat): nat
    requires i <= |pages|
  {
    SceneCount(pages[..i])
  }

  function MarksCode(marks: seq<Mark>, border: nat): seq<Fragment>
    decreases |marks|
  {
    if marks == [] then []
    else MarksCode(marks[..|marks| - 1], border) + SlotCode(marks[|marks| - 1], border)
  }

  /** The marks of a transition, each guarded by `start + order`. */
  function TransitionCode(t: Mark, start: nat): seq<Fragment>
  {
    if t.Transition? then MarksCode(t.marks, start + t.order) else []
  }

  function TransitionsCode(transitions: seq<Mark>, start: nat): seq<Fragment>
    decreases |transitions|
  {
    if transitions == [] then []
    else TransitionsCode(transitions[..|transitions| - 1], start) + TransitionCode(transitions[|transitions| - 1], start)
  }

  /** The block of one entry starting at scene `start`, selected by the
      half-open interval `[start, start + max_transition_idx + 1)`. */
  function PageBlock(e: PageEntry, start: nat): seq<Fragment>
  {
    if e.page.Page? then
      [PageGuard(start, start + e.maxStep + 1)] + TransitionsCode(e.page.transitions, start) + [Fixed(CloseBrace)]
    else []
  }

  function PagesCode(pages: seq<PageEntry>): seq<Fragment>
    decreases |pages|
  {
    if pages == [] then []
    else PagesCode(pages[..|pages| - 1]) + PageBlock(pages[|pages| - 1], SceneCount(pages[..|pages| - 1]))
  }

  /** What `generate_code_update` returns: the page blocks, then the third
      app fragment with the scene total substituted. */
  function UpdateCode(pages: seq<PageEntry>, app3: string): seq<Fragment>
  {
    PagesCode(pages) + [Raw(ReplaceStr(app3, "max_scene_idx", NatToString(SceneCount(pages))))]
  }

  method GenerateCodeUpdate(pages: seq<PageEntry>, app3: string) returns (code: seq<Fragment>)
    ensures code == UpdateCode(pages, app3)
  {
    code := [];
    var maxSceneIdx := 0;
    var i := 0;
    while i < |pages|
      invariant 0 <= i <= |pages|
      invariant maxSceneIdx == SceneCount(pages[..i])
      invariant code == PagesCode(pages[..i])
    {
      PagesCodeStep(pages, i);
      var e := pages[i];
      if e.page.Page? {
        ghost var prev := code;
        var currentPageIdx := maxSceneIdx;
        var nextPageIdx := currentPageIdx + e.maxStep + 1;
        maxSceneIdx := maxSceneIdx + e.maxStep + 1;
        code := code + [PageGuard(currentPageIdx, nextPageIdx)];
        code := EmitTransitions(code, e.page.transitions, currentPageIdx);
        code := code + [Fixed(CloseBrace)];
        PageBlockPushes(prev, code, e, currentPageIdx);
      }
      i := i + 1;
    }
    assert pages[..i] == pages;
    code := code + [Raw(ReplaceStr(app3, "max_scene_idx", NatToString(maxSceneIdx)))];
  }

  /** The pushes for one page append its block. */
  lemma PageBlockPushes(prev: seq<Fragment>, code: seq<Fragment>, e: PageEntry, start: nat)
    requires e.page.Page?
    requires code == prev + [PageGuard(start, start + e.maxStep + 1)] + TransitionsCode(e.page.transitions, start) + [Fixed(CloseBrace)]
    ensures code == prev + PageBlock(e, start)
  {
  }

  lemma PagesCodeStep(pages: seq<PageEntry>, i: nat)
    requires i < |pages|
    ensures SceneCount(pages[..i + 1]) == SceneCount(pages[..i]) + PageScenes(pages[i])
    ensures PagesCode(pages[..i + 1]) == PagesCode(pages[..i]) + PageBlock(pages[i], SceneCount(pages[..i]))
  {
    assert pages[..i + 1][..i] == pages[..i];
  }

  /** The loop over one page's transitions, pushing onto `code0`. */
  method EmitTransitions(code0: seq<Fragment>, transitions: seq<Mark>, currentPageIdx: nat) returns (code: seq<Fragment>)
    ensures code == code0 + TransitionsCode(transitions, currentPageIdx)
  {
    code := code0;
    var j := 0;
    while j < |transitions|
      invariant 0 <= j <= |transitions|
      invariant code == code0 + TransitionsCode(transitions[..j], currentPageIdx)
    {
      TransitionsCodeStep(transitions, j, currentPageIdx);
      AppendAssoc(code0, TransitionsCode(transitions[..j], currentPageIdx), TransitionCode(transitions[j], currentPageIdx));
      var t := transitions[j];
      if t.Transition? {
        code := EmitMarks(code, t.marks, currentPageIdx, t.order);
      }
      j := j + 1;
    }
    assert transitions[..j] == transitions;
  }

  lemma TransitionsCodeStep(transitions: seq<Mark>, j: nat, start: nat)
    requires j < |transitions|
    ensures TransitionsCode(transitions[..j + 1], start) == TransitionsCode(transitions[..j], start) + TransitionCode(transitions[j], start)
  {
    assert transitions[..j + 1][..j] == transitions[..j];
  }

  /** The loop over one transition's marks, pushing onto `code0`. */
  method EmitMarks(code0: seq<Fragment>, marks: seq<Mark>, currentPageIdx: nat, order: nat) returns (code: seq<Fragment>)
    ensures code == code0 + MarksCode(marks, currentPageIdx + order)
  {
    code := code0;
    var k := 0;
    while k < |marks|
      invariant 0 <= k <= |marks|
      invariant code == code0 + MarksCode(marks[..k], currentPageIdx + order)
    {
      ghost var prev := code;
      code := code + [Fixed(SlotOpen)];
      var transitionBorder := currentPageIdx + order;
      code := code + TransitionGuard(transitionBorder);
      var emitted := MarkCode(marks[k]);
      code := code + emitted.frags + [Fixed(CloseClosure)];
      if emitted.lineBreak {
        code := code + [Fixed(EndRowCall)];
      }
      SlotPushes(prev, code, emitted, transitionBorder);
      MarksCodeStep(marks, k, transitionBorder);
      AppendAssoc(code0, MarksCode(marks[..k], transitionBorder), SlotWrap(emitted, transitionBorder));
      k := k + 1;
    }
    assert marks[..k] == marks;
  }

  /** The pushes of one loop iteration append one slot. */
  lemma SlotPushes(prev: seq<Fragment>, code: seq<Fragment>, e: Emitted, border: nat)
    requires code == prev + [Fixed(SlotOpen)] + TransitionGuard(border) + e.frags + [Fixed(CloseClosure)]
                     + (if e.lineBreak then [Fixed(EndRowCall)] else [])
    ensures code == prev + SlotWrap(e, border)
  {
  }

  lemma MarksCodeStep(marks: seq<Mark>, k: nat, border: nat)
    requires k < |marks|
    ensures MarksCode(marks[..k + 1], border) == MarksCode(marks[..k], border) + SlotWrap(MarkCode(marks[k]), border)
  {
    assert marks[..k + 1][..k] == marks[..k];
  }

  // ---------------------------------------------------------------------------
  // `generate_code_setup` (src/builder.rs:323-353)
  // ---------------------------------------------------------------------------

  /** `PathBuf::from("..").join("..").join(key)` shown as a string: a key
      that is an absolute path replaces the whole path. */
  function KeyPath(key: string): string
  {
    if |key| > 0 && key[0] == '/' then key else "../../" + key
  }

  /** The three statements that embed, decode and cache one image. */
  function ResourceCode(key: string): seq<Fragment>
  {
    [IncludeBytes(KeyPath(key)), Fixed(LoadTexture), InsertTexture(key)]
  }

  function ResourcesCode(keys: seq<string>): seq<Fragment>
    decreases |keys|
  {
    if keys == [] then [] else ResourcesCode(keys[..|keys| - 1]) + ResourceCode(keys[|keys| - 1])
  }

  /** `resources` after the keys `keys` have been met, starting from `seen`:
      a key is appended unless it is already there. */
  function DedupInto(seen: seq<string>, keys: seq<string>): seq<string>
    decreases |keys|
  {
    if keys == [] then seen
    else
      var r := DedupInto(seen, keys[..|keys| - 1]);
      if keys[|keys| - 1] in r then r else r + [keys[|keys| - 1]]
  }

  /** The distinct keys of `keys`, in the order they are first met. */
  function Dedup(keys: seq<string>): seq<string>
  {
    DedupInto([], keys)
  }

  function SetupCode(pages: seq<PageEntry>): seq<Fragment>
  {
    ResourcesCode(Dedup(DocumentImageKeys(pages)))
  }

  method GenerateCodeSetup(pages: seq<PageEntry>) returns (code: seq<Fragment>)
    ensures code == SetupCode(pages)
  {
    code := [];
    var resources: seq<string> := [];
    var i := 0;
    while i < |pages|
      invariant 0 <= i <= |pages|
      invariant resources == DedupInto([], DocumentImageKeys(pages[..i]))
      invariant code == ResourcesCode(resources)
    {
      DocumentImageKeysStep(pages, i);
      DedupIntoAppend([], DocumentImageKeys(pages[..i]), EntryImageKeys(pages[i]));
      if pages[i].page.Page? {
        var transitions := pages[i].page.transitions;
        ghost var before := resources;
        var j := 0;
        while j < |transitions|
          invariant 0 <= j <= |transitions|
          invariant resources == DedupInto(before, TransitionsImageKeys(transitions[..j]))
          invariant code == ResourcesCode(resources)
        {
          TransitionsImageKeysStep(transitions, j);
          DedupIntoAppend(before, TransitionsImageKeys(transitions[..j]), TransitionImageKeys(transitions[j]));
          if transitions[j].Transition? {
            code, resources := SetupMarks(code, resources, transitions[j].marks);
          }
          j := j + 1;
        }
        assert transitions[..j] == transitions;
      }
      i := i + 1;
    }
    assert pages[..i] == pages;
  }

  /** The loop over one transition's marks: an image whose key is not yet in
      `resources` gets its statements and joins `resources`. */
  method SetupMarks(code0: seq<Fragment>, resources0: seq<string>, marks: seq<Mark>)
    returns (code: seq<Fragment>, resources: seq<string>)
    requires code0 == ResourcesCode(resources0)
    ensures resources == DedupInto(resources0, MarksImageKeys(marks))
    ensures code == ResourcesCode(resources)
  {
    code, resources := code0, resources0;
    var k := 0;
    while k < |marks|
      invariant 0 <= k <= |marks|
      invariant resources == DedupInto(resources0, MarksImageKeys(marks[..k]))
      invariant code == ResourcesCode(resources)
    {
      MarksImageKeysStep(marks, k);
      DedupIntoAppend(resources0, MarksImageKeys(marks[..k]), MarkImageKeys(marks[k]));
      if marks[k].Image? {
        var key := marks[k].key;
        DedupIntoOne(resources, key);
        if key !in resources {
          ResourcesCodeSnoc(resources, key);
          code := code + ResourceCode(key);
          resources := resources + [key];
        }
      }
      k := k + 1;
    }
    assert marks[..k] == marks;
  }

  lemma DedupIntoOne(seen: seq<string>, key: string)
    ensures DedupInto(seen, [key]) == if key in seen then seen else seen + [key]
  {
    assert [key][..0] == [];
  }

  lemma ResourcesCodeSnoc(keys: seq<string>, key: string)
    ensures ResourcesCode(keys + [key]) == ResourcesCode(keys) + ResourceCode(key)
  {
    assert (keys + [key])[..|keys|] == keys;
  }

  lemma {:induction false} DedupIntoAppend(seen: seq<string>, a: seq<string>, b: seq<string>)
    ensures DedupInto(seen, a + b) == DedupInto(DedupInto(seen, a), b)
    decreases |b|
  {
    if b == [] {
      assert a + b == a;
    } else {
      var b' := b[..|b| - 1];
      assert (a + b)[..|a + b| - 1] == a + b';
      DedupIntoAppend(seen, a, b');
    }
  }

  // ---------------------------------------------------------------------------
  // `generate_code` (src/builder.rs:308-321)
  // ---------------------------------------------------------------------------

  /** The buffer of the generated `main.rs`. */
  method GenerateCode(t: Templates, pages: seq<PageEntry>) returns (code: seq<Fragment>)
    ensures code == [Raw(t.imports), Raw(ReplaceStr(t.app1, "name", "\"opmark\""))] + SetupCode(pages)
                    + [Raw(t.app2)] + UpdateCode(pages, t.app3) + [Raw(t.main)]
  {
    code := [];
    code := code + [Raw(t.imports)];
    code := code + [Raw(ReplaceStr(t.app1, "name", "\"opmark\""))];
    var setup := GenerateCodeSetup(pages);
    code := code + setup;
    code := code + [Raw(t.app2)];
    var update := GenerateCodeUpdate(pages, t.app3);
    code := code + update;
    code := code + [Raw(t.main)];
  }
}
