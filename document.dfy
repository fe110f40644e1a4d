/** The document shapes of the `opmark` crate as both backends consume them:
    a page is a `Mark::Page` of `Mark::Transition`s, each holding the marks it
    reveals, and the navigation list holds one `(page, max_transition_idx,
    transition_idx)` triple per page. Also the walk that lists the image
    resource keys of pages in document order, which the interactive texture
    cache and the generated resource table both follow. */
module Document {
  import opened Wrappers

  newtype u8 = x: int | 0 <= x < 256

  /** Heading levels. Both backends treat every heading below `H2` alike, so
      those levels are represented by `H3`. */
  datatype Heading = NoHeading | H1 | H2 | H3

  datatype IndentLevel = NoIndent | I1 | I2 | I3

  /** `IndentLevel::to_int`. */
  function IndentInt(level: IndentLevel): nat
  {
    match level
    case NoIndent => 0
    case I1 => 1
    case I2 => 2
    case I3 => 3
  }

  datatype Listing = NoListing | Unordered(indent: IndentLevel) | Ordered(n: u8, indent: IndentLevel)

  datatype StyleText = StyleText(
    bold: bool,
    code: bool,
    italics: bool,
    small: bool,
    strikethrough: bool,
    underline: bool,
    heading: Heading,
    hyperlink: string,
    quote: bool,
    listing: Listing)

  datatype AlignHorizontal = Auto | Left | Right | Center

  /** Explicit image box size in pixels, when the document gives one. */
  datatype StyleImage = StyleImage(width: Option<nat>, height: Option<nat>, alignH: AlignHorizontal)

  datatype SeparatorDir = Horizontal | Vertical

  datatype Mark =
    | Text(text: string, style: StyleText)
    | CodeBlock(code: string, language: Option<string>)
    | Image(key: string, title: string, imageStyle: StyleImage)
    | NewLine
    | Separator(dir: SeparatorDir)
    | Page(transitions: seq<Mark>)
    | Transition(order: nat, marks: seq<Mark>)

  /** One `(page, max_transition_idx, transition_idx)` entry. */
  datatype PageEntry = PageEntry(page: Mark, maxStep: nat, step: nat)

  // ---------------------------------------------------------------------------
  // Image resource keys, in document order (duplicates kept)
  // ---------------------------------------------------------------------------

  function MarkImageKeys(m: Mark): seq<string>
  {
    if m.Image? then [m.key] else []
  }

  function MarksImageKeys(marks: seq<Mark>): (keys: seq<string>)
    ensures forall i :: 0 <= i < |marks| && marks[i].Image? ==> marks[i].key in keys
    ensures forall k :: k in keys ==> exists i :: 0 <= i < |marks| && marks[i].Image? && marks[i].key == k
    decreases |marks|
  {
    if marks == [] then []
    else
      var init := marks[..|marks| - 1];
      var keys := MarksImageKeys(init) + MarkImageKeys(marks[|marks| - 1]);
      assert forall i :: 0 <= i < |init| ==> init[i] == marks[i];
      keys
  }

  function TransitionImageKeys(t: Mark): seq<string>
  {
    if t.Transition? then MarksImageKeys(t.marks) else []
  }

  function TransitionsImageKeys(transitions: seq<Mark>): seq<string>
    decreases |transitions|
  {
    if transitions == [] then []
    else TransitionsImageKeys(transitions[..|transitions| - 1]) + TransitionImageKeys(transitions[|transitions| - 1])
  }

  /** The image keys of one navigation entry, in the order both backends visit them. */
  function EntryImageKeys(e: PageEntry): seq<string>
  {
    if e.page.Page? then TransitionsImageKeys(e.page.transitions) else []
  }

  function DocumentImageKeys(pages: seq<PageEntry>): seq<string>
    decreases |pages|
  {
    if pages == [] then []
    else DocumentImageKeys(pages[..|pages| - 1]) + EntryImageKeys(pages[|pages| - 1])
  }

  /** The keys of the first `k` marks come first in the keys of all the marks. */
  lemma {:induction false} MarksImageKeysPrefix(marks: seq<Mark>, k: nat)
    requires k <= |marks|
    ensures MarksImageKeys(marks[..k]) <= MarksImageKeys(marks)
    decreases |marks|
  {
    if k < |marks| {
      var init := marks[..|marks| - 1];
      assert init[..k] == marks[..k];
      MarksImageKeysPrefix(init, k);
    } else {
      assert marks[..k] == marks;
    }
  }

  lemma {:induction false} TransitionsImageKeysPrefix(transitions: seq<Mark>, k: nat)
    requires k <= |transitions|
    ensures TransitionsImageKeys(transitions[..k]) <= TransitionsImageKeys(transitions)
    decreases |transitions|
  {
    if k < |transitions| {
      var init := transitions[..|transitions| - 1];
      assert init[..k] == transitions[..k];
      TransitionsImageKeysPrefix(init, k);
    } else {
      assert transitions[..k] == transitions;
    }
  }

  lemma {:induction false} DocumentImageKeysPrefix(pages: seq<PageEntry>, k: nat)
    requires k <= |pages|
    ensures DocumentImageKeys(pages[..k]) <= DocumentImageKeys(pages)
    decreases |pages|
  {
    if k < |pages| {
      var init := pages[..|pages| - 1];
      assert init[..k] == pages[..k];
      DocumentImageKeysPrefix(init, k);
    } else {
      assert pages[..k] == pages;
    }
  }

  lemma MarksImageKeysStep(marks: seq<Mark>, k: nat)
    requires k < |marks|
    ensures MarksImageKeys(marks[..k + 1]) == MarksImageKeys(marks[..k]) + MarkImageKeys(marks[k])
  {
    assert marks[..k + 1][..k] == marks[..k];
  }

  lemma TransitionsImageKeysStep(transitions: seq<Mark>, j: nat)
    requires j < |transitions|
    ensures TransitionsImageKeys(transitions[..j + 1]) == TransitionsImageKeys(transitions[..j]) + TransitionImageKeys(transitions[j])
  {
    assert transitions[..j + 1][..j] == transitions[..j];
  }

  lemma DocumentImageKeysStep(pages: seq<PageEntry>, i: nat)
    requires i < |pages|
    ensures DocumentImageKeys(pages[..i + 1]) == DocumentImageKeys(pages[..i]) + EntryImageKeys(pages[i])
  {
    assert pages[..i + 1][..i] == pages[..i];
  }
}
