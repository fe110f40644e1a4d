# opmark-egui, modelled in Dafny

opmark-egui shows an OpMark presentation in a window, and it can also turn
the presentation into a standalone Rust program. A presentation is a list of
pages. Each page holds numbered transitions of marks: text with styles,
headings, hyperlinks, ordered and unordered listing items, quotes, code
blocks, images, separators and new lines. The window reveals a page's
transitions one step at a time. This project models three parts of it and
proves properties about them:

- **The viewer `App`** (src/app.rs), modules `Navigation`, `Dispatch` and `Viewer`.
  - `next` and `prev` act on the pair (current page, step of that page).
    The model is a value-level state machine (`Navigation`) plus a class
    `Viewer.App` whose fields the methods update in place.
  - One frame of `update` is a method. It walks the current page's marks,
    gives every mark its horizontal slot, and hides the paint of marks whose
    transition order exceeds the page's step. It ends the row after a mark
    whose helper returns true, and fills the texture cache only for keys not
    yet in it. Then it applies the click and the released keys.
  - The drawing surface becomes a trace of instructions (`Viewer.Instr`,
    `Dispatch.Op`).
- **The code generator** (src/builder.rs), modules `Builder`, `BuilderFacts` and `Backends`.
  - Every emitter appends to a code buffer. The buffer is modelled as a
    list of fragments whose exact text `Builder.Render` gives.
  - `generate_code_update` and `generate_code_setup` are methods with loops,
    proved equal to specification functions.
  - The generator is modelled as written, including the image emitter
    that leaves out a `height` declaration (see Findings).
  - `Backends` proves that the statements generated for a mark translate
    what the viewer draws for it exactly when the mark is not an image
    without a width. Each such image leaves one declaration out. With that
    declaration supplied (`Builder.CorrectedMarkCode`), the two agree on
    every mark. The same holds slot by slot, for a transition's marks and
    for a whole page. `Backends` also proves that the generated
    `scene_idx` guards hide a mark in exactly the scenes where the viewer
    hides it, apart from one divergence, recorded below.
- **The meta-header parser** (src/parser.rs), module `MetaParser`.
  - `Parser::new` strips an optional `---meta` header and reads its
    `fullscreen` and `title` lines. It is a method with a loop, proved equal
    to the function `MetaParser.Parse`.
  - The platform's `LINE_ENDING` is a parameter.

Shared modules: `Document` holds the mark shapes of the opmark crate and the
image keys a page uses. `Strings` holds decimal rendering, first-occurrence
search, split, Unicode trim and replace-all. `Seqs` holds four generic
sequence lemmas (regrouping, splitting at an index, and two about lengths of
concatenations) and the `Any` predicate with its step lemma. `Wrappers` holds `Option`.

Two behaviours of the code worth noting:

- `next` advances the step only when the page's largest transition order is
  **greater than 1** (src/app.rs:318). For a page whose largest order is 1,
  `next` goes straight to the next page, so its order-1 marks are never
  shown (`Navigation.SmallPageNeverRevealed`). The generator gives such a
  page a second scene in which those marks are painted: this is the
  divergence between the two backends (`Backends.MaxOnePageDiverges`).
- A click and an arrow key seen in the same frame both take effect: the
  click first, then the key (src/app.rs:289-301).

## Model

| member | source | states |
|---|---|---|
| Navigation.Next | src/app.rs:315-326 | On a page whose largest order is > 1 and whose step is below it, the step goes up by one and nothing else changes. Otherwise the index moves to the next page, or stays put on the last page. No other page's entry changes. The index stays in bounds, and well-formedness is preserved. |
| Navigation.Prev | src/app.rs:328-337 | A positive step goes down by one. At step 0 the index moves back one page, or stays at 0. No other page's entry changes, nothing underflows, and well-formedness is preserved. |
| Navigation.Run | src/app.rs:315-337 | Any sequence of next/prev/quit actions keeps the index within the page list and keeps the page count. |
| Navigation.InitialIsWellFormed | src/app.rs:306-313 | The state `App::new` produces (index 0, every step 0, a page list) is well formed: the index is in bounds and every step is at most its page's largest order. |
| Navigation.RunStaysWellFormed | src/app.rs:315-337 | From a well-formed state, every action sequence leads to a well-formed state of the same document. |
| Navigation.SmallPageNeverRevealed | src/app.rs:318-320 | From the initial state, a page whose largest order is at most 1 keeps step 0 under every action sequence, so no mark of order ≥ 1 on it is ever revealed. |
| Navigation.UnvisitedPageKept | src/app.rs:315-337 | A page that is never the current page during a run keeps its entry, step included. |
| Navigation.ForwardNexts | src/app.rs:315-326 | k `next`s keep the state forward and in the same document, and raise the progress rank (effective `next`s from the start: steps and page moves before the current page plus its step) by at most k. |
| Navigation.ForwardPrevs | src/app.rs:328-337 | k `prev`s bring a forward state of rank at most k down to rank 0, in the same document. |
| Navigation.RankZeroIsInitial | src/app.rs:306-313 | The only forward state of rank 0 is the initial state of the same document. |
| Navigation.NextsThenPrevsRestore | src/app.rs:315-337 | From the initial state, k `next`s followed by k `prev`s give back exactly the initial state. |
| Viewer.Actions | src/app.rs:289-301 | A frame performs one action for a click plus one if any key was released, so at most two, and a click comes first as `next`. Quit happens iff Escape was released. When Escape was not released but Right or Down was, the last action is `next`. `prev` happens iff Left or Up was released and neither Escape, Right nor Down was. No input, no action. |
| Viewer.RunFrameActions | src/app.rs:289-301 | Running the frame's action list is the click branch followed by the key branch. |
| Viewer.ClickEffect | src/app.rs:289-292 | The click branch keeps the index in bounds. |
| Viewer.MarksTraceSlots | src/app.rs:233-239 | The trace holds exactly one horizontal slot per mark (`Slots`), whether or not its paint is shown. Every slot of a transition's marks is visible exactly when the transition's order is at most the page's step. |
| Viewer.FillCacheSound | src/app.rs:245-251 | Filling the cache never replaces an entry already present. Every key met ends up cached, and nothing else is added. Each new entry is what the loader gave for its key. A failure names a key that was met, was absent, and failed to load. |
| Viewer.FillCacheFailureStays | src/app.rs:246-249 | Once a load has failed, meeting more keys changes nothing: the frame has ended. |
| Viewer.AbortedFrame | src/app.rs:246-249 | A load failing inside one transition is the failure of the whole page's cache fill. |
| Viewer.App.constructor | src/app.rs:306-313 | The new viewer stands on page 0 with the given pages and title and an empty texture cache. |
| Viewer.App.Next | src/app.rs:315-326 | The navigation state becomes `Navigation.Next` of the old one. Title and textures are unchanged. |
| Viewer.App.Prev | src/app.rs:328-337 | The navigation state becomes `Navigation.Prev` of the old one. Title and textures are unchanged. |
| Viewer.App.CacheTexture | src/app.rs:245-251 | An absent key is loaded and inserted; a present one is left as it is. Old entries keep their values. A failed load is reported with its key. |
| Viewer.App.DrawMark | src/app.rs:236-281 | One mark's instructions are its slot (visible iff order ≤ step, with the dispatcher's ops) and an end of row iff the helper returned true. The cache advances by the mark's image keys. |
| Viewer.App.DrawMarks | src/app.rs:233-282 | The loop over a transition's marks yields the concatenated slot traces and the cache after all their image keys, or the first failing key. |
| Viewer.App.DrawEntry | src/app.rs:229-285 | The loops over the page yield `PageTrace` of the page and the cache after all the page's image keys, or the first failing key. |
| Viewer.App.Update | src/app.rs:217-302 | With the index past the end, nothing happens. If a load fails, the frame panics on that key and navigation is untouched. Otherwise the cache is the filled one, the frame shows `PageTrace` of the page, it asks to quit iff Escape was released, and the navigation state is the run of the frame's actions. |
| Dispatch.LabelStepsRequested | src/app.rs:91-114 | The rich-text steps applied are exactly those the style asks for, in the fixed order strong, code, italics, small, strikethrough, underline, then the heading step. |
| Dispatch.Label | src/app.rs:76-126 | A hyperlink draws only `hyperlink_to(text, url)`. Otherwise it draws one rich label of the text with exactly the steps `LabelSteps(style)`, the ones the style requests. It breaks the line iff there is no hyperlink and the heading is not `None`. |
| Dispatch.ImageWidth | src/app.rs:42-51 | The width is the style's width when one is given, and the texture's own width otherwise. |
| Dispatch.ImageHeight | src/app.rs:41-51 | The height is the style's height only when both width and height are given. It is scaled by the aspect ratio exactly when only the width is given, and otherwise it is the texture's height. |
| Dispatch.ImageOps | src/app.rs:40-64 | An image draws one image of its key and breaks the line. |
| Dispatch.CodeBlockOps | src/app.rs:27-37 | A code block breaks the line. |
| Dispatch.NewLineOps | src/app.rs:128-131 | A new line breaks the line. |
| Dispatch.OrderedListing | src/app.rs:133-146 | An ordered item breaks the line. |
| Dispatch.QuoteOps | src/app.rs:148-162 | A quote breaks the line. |
| Dispatch.SeparatorOps | src/app.rs:164-170 | A separator breaks the line. |
| Dispatch.UnorderedListing | src/app.rs:172-210 | An unordered item breaks the line. |
| Dispatch.DispatchMark | src/app.rs:240-276 | The line-break flag is `BreaksLine(m)`: true for code blocks, images, new lines, separators, listing items and quotes; for a plain label, true iff it has no hyperlink and a heading. Page and transition marks draw nothing and do not break. |
| Document.MarksImageKeys | src/app.rs:244-251 | The keys met while walking the marks are exactly the keys of their image marks. |
| Builder.PagesCodeStep | src/builder.rs:357-366 | Adding a page adds its largest order plus one to the scene total, and appends that page's block starting at the previous total. |
| Builder.EmitMarks | src/builder.rs:370-404 | The loop over a transition's marks appends exactly `MarksCode(marks, start + order)`: per mark, the wrapper, the guard, the emitter's code as written and the row end its flag asks for. |
| Builder.EmitTransitions | src/builder.rs:368-406 | The loop over a page's transitions appends exactly `TransitionsCode`. |
| Builder.GenerateCodeUpdate | src/builder.rs:355-417 | The loop with the `max_scene_idx` accumulator yields exactly `UpdateCode`: the page blocks, then app fragment 3 with `max_scene_idx` replaced by the scene total. |
| Builder.SetupMarks | src/builder.rs:330-346 | The loop over marks extends the resource list by the new image keys in order, skipping keys already listed. The code is the resource code of that list. |
| Builder.GenerateCodeSetup | src/builder.rs:323-353 | The code is the resource code of the document's image keys with duplicates removed. |
| Builder.GenerateCode | src/builder.rs:308-321 | The buffer is the imports, app fragment 1 with `name` replaced by `"opmark"`, the setup code, app fragment 2, the update code and the main fragment, in that order. |
| BuilderFacts.GeneratedLayout | src/builder.rs:308-321 | The generated text is the concatenation of those six pieces' texts. |
| BuilderFacts.LabelInlinesText | src/builder.rs:99-137 | The label's text, or the text and the hyperlink, appear verbatim between quotes in the generated code. |
| BuilderFacts.CodeBlockInlinesCode | src/builder.rs:22-36 | The code appears verbatim between quotes in the generated code. |
| BuilderFacts.ImageInlinesKeyAndTitle | src/builder.rs:38-79 | The image key and the title appear verbatim between quotes in the generated code, with the emitter as written and with the corrected one. |
| BuilderFacts.UnescapedHyperlinksCollide | src/builder.rs:134-137 | Two different (text, url) pairs generate the same hyperlink statement, because quotes are not escaped. |
| BuilderFacts.HyperlinkText | src/builder.rs:134-137 | The hyperlink statement is `ui.hyperlink_to("text", "url");` with both inlined. |
| BuilderFacts.GuardHidesBelowBorder | src/builder.rs:200-206 | A guard is emitted iff the border is positive, and it hides the mark iff the scene is below the border. |
| BuilderFacts.SceneStartStep | src/builder.rs:357-362 | Page i+1 starts where page i ends: its start plus its largest order plus one. |
| BuilderFacts.SceneStartsOrdered | src/builder.rs:357-366 | Every later page starts at or after an earlier page's end. |
| BuilderFacts.SceneStartsMonotone | src/builder.rs:357-366 | Page starts never decrease. |
| BuilderFacts.SceneIntervalsBelowTotal | src/builder.rs:357-366 | Every page's interval ends at or below the scene total. |
| BuilderFacts.ScenesCovered | src/builder.rs:357-366 | Every scene below the total lies in some page's interval. |
| BuilderFacts.ScenePageUnique | src/builder.rs:357-366 | No scene lies in two pages' intervals. |
| BuilderFacts.SceneExample | src/builder.rs:357-415 | Pages with largest orders 2, 0 and 1 own scenes [0,3), [3,4) and [4,6). The total is 6, and the second page's guard is `scene_idx >= 3 && scene_idx < 4`. |
| BuilderFacts.ReplaceStrAbsent | src/builder.rs:184-186 | Without the marker, the template is returned unchanged. |
| BuilderFacts.ReplaceStrOnce | src/builder.rs:184-186 | With one marker occurrence, exactly that occurrence is replaced and nothing else changes. |
| BuilderFacts.DedupIntoMembers | src/builder.rs:325-345 | The resource list keeps what it had and gains exactly the keys met. |
| BuilderFacts.DedupIntoDistinct | src/builder.rs:332-345 | The resource list never holds a key twice. |
| BuilderFacts.DedupFirstSeenOrder | src/builder.rs:325-345 | The resource list is in order of each key's first appearance. |
| BuilderFacts.InsertedResources | src/builder.rs:336-344 | The setup code inserts the listed keys, in list order. |
| BuilderFacts.SetupInsertsEachKeyOnce | src/builder.rs:323-353 | The setup code inserts every image key of the document, and only those, each once, in order of first appearance. |
| BuilderFacts.WidthDeclarationTexts | src/builder.rs:46-56 | Both ways of setting the width emit a `let width = ` statement. |
| BuilderFacts.HeightDeclarationTexts | src/builder.rs:46-53 | Both ways of setting the height emit a `let height = ` statement. |
| BuilderFacts.AsWrittenImageLacksHeight | src/builder.rs:44-57 | As written, an image without a width emits the image call, and no statement declares `height`. |
| BuilderFacts.ImageCorrectionOnlyWithoutWidth | src/builder.rs:44-57 | The corrected emitter differs from the one as written exactly when no width is given. |
| BuilderFacts.ImageDeclaresSize | src/builder.rs:38-79 | In the corrected emitter, the image call always follows a declaration of `width` and one of `height`. |
| Backends.ModifiersAgree | src/builder.rs:105-127 | The generated rich-text statements are the translation of the viewer's steps, in the same order. |
| Backends.ModifierCodeSpelled | src/builder.rs:105-122 | The modifiers are emitted in the order strong, code, italics, small, strikethrough, underline, each iff its style flag is set. |
| Backends.HeadingCodeSpelled | src/builder.rs:123-127 | H1 emits `heading().strong()`, H2 emits `heading()`, and other headings emit nothing. |
| Backends.LabelAgrees | src/builder.rs:86-140 | The generated label code is the translation of the viewer's label ops, with the same line-break flag. |
| Backends.ImageAgrees | src/builder.rs:38-79 | The corrected image code is the translation of the viewer's image ops. |
| Backends.OrderedAgrees | src/builder.rs:153-166 | The ordered-item code is the translation of the viewer's ops. |
| Backends.QuoteAgrees | src/builder.rs:168-182 | The quote code is the translation of the viewer's ops. |
| Backends.UnorderedAgrees | src/builder.rs:208-241 | The unordered-item code is the translation of the viewer's ops, bullet shape included. |
| Backends.TextAgrees | src/builder.rs:381-395 | For a text mark, whichever of ordered item, unordered item, label or quote the listing and quote flag select, the generated code translates the viewer's ops, and both report the same line break. |
| Backends.MarkCodeAgrees | src/builder.rs:375-398 | A mark's generated code translates the viewer's ops iff the mark is not an image without a width, otherwise it is one fragment shorter. The flags always agree, and both are `BreaksLine(m)`. |
| Builder.CorrectedMarkCode | src/builder.rs:375-398 | The dispatch with the corrected image emitter. It is the dispatch as written on every mark except an image without a width. |
| Backends.CorrectedMarkCodeAgrees | src/builder.rs:375-398 | With the corrected image emitter, every mark's code translates the viewer's ops, with the same flag. |
| Backends.AsWrittenImageDisagrees | src/builder.rs:44-57 | The image emitter as written agrees with the viewer iff a width is given. Otherwise it is one fragment short. |
| Backends.SlotAgrees | src/builder.rs:371-403 | A mark's slot code, guard and row end included, translates the viewer's slot trace iff the mark is not an image without a width. The translation is longer by the missing declarations. |
| Backends.MarksCodeMatchesTrace | src/builder.rs:370-404 | The generated code of a transition's marks translates the viewer's trace of the same marks iff none of them is an image without a width. The translation is longer by exactly the number of such images. |
| Backends.MarksCodeLength | src/builder.rs:370-404 | The translation of a transition's trace is longer than its generated code by the number of images without a width, and equal to it when there are none. |
| Backends.TransitionsCodeLength | src/builder.rs:368-406 | Over a page's transitions, each under its own border `start + order`, the translated viewer trace is longer than the generated code by the number of images without a width, and equal to it when there are none. |
| Backends.PageBlockMatchesTrace | src/builder.rs:358-408 | A page's generated block is its scene guard around the translation of the viewer's trace of that page, iff no height declaration is missing. That holds iff no image mark in any of its transitions lacks a width. |
| Backends.GuardAgreesWithReveal | src/builder.rs:372-373 | At scene start+step, the guard with border start+order hides a mark iff the viewer would not reveal order at step. |
| Backends.SlotVisibilityAgrees | src/app.rs:236-239 | Each slot in the viewer's trace is visible iff the generated guard lets it through at the matching scene. |
| Backends.ViewerStateIsScene | src/builder.rs:357-366 | A well-formed viewer state on a page corresponds to scene start+step. That scene lies in that page's interval, below the total, and in no other page's interval. |
| Backends.MaxOnePageDiverges | src/app.rs:318-320 | On a page whose largest order is 1, the generated program has two scenes and shows order-1 marks at the second. The viewer, from its initial state, never reveals them. |
| MetaParser.EndingText | src/parser.rs:3-6 | Each line ending ends with `\n`. |
| MetaParser.ApplyLine | src/parser.rs:24-37 | `fullscreen` is set iff it was set or the line's key is exactly `fullscreen` with a value trimming to `true`. The title becomes the trimmed value of a `title` line that has a colon and is kept otherwise. |
| MetaParser.NewParser | src/parser.rs:15-49 | The loop over header lines yields exactly `Parse(le, s)`. |
| MetaParser.NoHeaderDefaults | src/parser.rs:16-21 | Without the opening line, or without a closing `---` line ending after it, the result is fullscreen false, title "OpMark Egui", and the whole input as body. |
| MetaParser.HeaderLayout | src/parser.rs:20-40 | With a header, the input is the opening line, the header text, `---`, then the body. The body begins with the line ending, and the header stops at the first closing marker. |
| MetaParser.HeaderRoundTrip | src/parser.rs:20-40 | Parsing an opening line, a header, a closing line and a tail yields the header lines' settings and the line ending plus the tail as body. |
| MetaParser.FullscreenIffSomeLine | src/parser.rs:26-30 | `fullscreen` is true iff some header line enables it; once set it is never reset. |
| MetaParser.LastTitleWins | src/parser.rs:31-35 | The title is the trimmed value of the last `title` line that has a colon. |
| MetaParser.DefaultTitleStays | src/parser.rs:31-35 | With no `title` line that has a colon, the title stays "OpMark Egui". |
| MetaParser.ValueKeepsColons | src/parser.rs:24-33 | A `title:` line's title is its whole trimmed value, colons included. |
| MetaParser.SplitOnceAt | src/parser.rs:24 | Splitting at the first colon gives the key before it and the whole rest as value. |
| MetaParser.CarriageReturnIgnored | src/parser.rs:23-35 | A trailing `\r` on a header line changes nothing in the settings. |
| MetaParser.CrLfHeaderSameSettings | src/parser.rs:23-35 | Header lines split from CRLF text give the same settings as the same lines without `\r`. |
| Strings.Find | src/parser.rs:21 | The result is the first occurrence of the pattern, and there is none iff the pattern does not occur. |
| Strings.Split | src/parser.rs:23 | The pieces contain no separator and join back to the input with it. |
| Strings.SplitOnce | src/parser.rs:24 | Without the separator, the key is the whole line and there is no value. Otherwise the line is key, separator, value, with no separator in the key. |
| Strings.Trim | src/parser.rs:27 | The result is a slice of the input with only whitespace cut on either side, and it neither starts nor ends with whitespace. |
| Strings.TrimDropsTrailingWhitespace | src/parser.rs:33 | Trailing whitespace does not change the trimmed text. |
| Strings.NatToString | src/builder.rs:363-366 | The decimal text has at least one digit, no leading zero except for 0 itself, and denotes the number. |
| Strings.NatToStringInjective | src/builder.rs:411-415 | Different numbers give different decimal texts. |
| Strings.ReplaceAbsent | src/builder.rs:185 | Replacing a pattern that does not occur changes nothing. |
| Strings.ReplaceLeftmost | src/builder.rs:185 | Replacement replaces the leftmost occurrence and carries on after it. |

## Left out

- Filesystem and process work are not modelled: src/builder/fs.rs, `Builder::build`, `Builder::code` and src/main.rs. They create directories, write files, run `cargo build` and relay its output, read the presentation and parse the command line.
- The template constants of the `templates` module are opaque strings (`Builder.Templates`), because that module is not part of this model.
- Image decoding and texture upload (src/app/texture.rs) become a `load` parameter that may fail. A failing load ends the frame, as the source's `expect` panics.
- egui geometry, spacing constants, colours and floating-point sizes are left out. The viewer's drawing is an abstract trace of ops. Image width and height are natural numbers of pixels, and the aspect-ratio height stays symbolic. The generator prints a size as `{}.0` (src/builder.rs:46,49), which is a valid literal only for a whole number; a fractional `f32` size would print something like `120.5.0`, which the model cannot express.
- The opmark crate's parser and `into_pages` are left out. The page list, with each page's largest transition order, is an input. Its mark shapes are the `Document` datatypes, with three heading levels and three indent levels beyond none.
- `App::name` and the window set-up are left out.
- Viewer.App.constructor: takes the page list ready-made and requires every step to be 0, as `into_pages` returns it.
- The include path `../../<key>` is built with `/`. Windows path separators are not modelled.
- `usize` arithmetic is unbounded: an overflow of `max_scene_idx` is not modelled.
- MetaParser.HeaderRoundTrip: assumes the header contains no `-`, so that the first closing marker is the one after the header. `MetaParser.HeaderLayout` states the general case.
- The hyperlink, text, code, key and title are inlined without escaping, as in the source. `BuilderFacts.UnescapedHyperlinksCollide` shows the consequence, and the model does not add escaping.

## Findings

| source | as written | input that shows it | evidently intended | confidence | as-written member | corrected member |
|---|---|---|---|---|---|---|
| src/builder.rs:44-57 | With no width given, the generated code declares only `let width = texture.size.x;` and then calls `ui.image(texture.id, egui::Vec2::new(width, height))`. No `height` is declared, so the generated program does not compile. | any image mark whose style has no width, such as an image with no size options | As in the viewer (src/app.rs:41-51), the height defaults to the texture's height: `let height = texture.size.y;` | not executed | BuilderFacts.AsWrittenImageLacksHeight | BuilderFacts.ImageDeclaresSize |

The generator model (`Builder.MarkCode` and everything built on it, up to
`Builder.GenerateCode`) follows the code as written. The compile failure
assumes the templates, which are not part of this model, bind no `height`
of their own. `Builder.CorrectedMarkCode` is the dispatch with the
corrected emitter, and `Backends.CorrectedMarkCodeAgrees` proves that it
agrees with the viewer on every mark.
