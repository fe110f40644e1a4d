/** What the generated program is made of, proved about the functions that
    specify the generator in module Builder. */
module BuilderFacts {
  import opened Wrappers
  import opened Document
  import opened Strings
  import opened Builder
  import opened Seqs

  // ---------------------------------------------------------------------------
  // Rendering a buffer
  // ---------------------------------------------------------------------------

  /** Pushing two buffers one after the other gives the concatenated text. */
  lemma {:induction false} RenderAppend(a: seq<Fragment>, b: seq<Fragment>)
    ensures Render(a + b) == Render(a) + Render(b)
    decreases |b|
  {
    if b == [] {
      assert a + b == a;
    } else {
      var b' := b[..|b| - 1];
      assert (a + b)[..|a + b| - 1] == a + b';
      RenderAppend(a, b');
      AppendAssoc(Render(a), Render(b'), FragmentText(b[|b| - 1]));
    }
  }

  /** The text of every pushed fragment occurs in the text of the buffer. */
  lemma RenderContains(buffer: seq<Fragment>, i: nat)
    requires i < |buffer|
    ensures Contains(Render(buffer), FragmentText(buffer[i]))
  {
    var pre, post := buffer[..i], buffer[i + 1..];
    SplitAt(buffer, i);
    RenderSplit(pre, buffer[i], post);
    ContainsMiddle(Render(pre), FragmentText(buffer[i]), Render(post));
  }

  lemma RenderSplit(pre: seq<Fragment>, x: Fragment, post: seq<Fragment>)
    ensures Render(pre + [x] + post) == Render(pre) + FragmentText(x) + Render(post)
  {
    RenderOne(x);
    RenderAppend(pre, [x]);
    RenderAppend(pre + [x], post);
  }

  /** The text of the generated `main.rs`: the imports, the first app
      fragment with its name substituted, the setup statements, the second
      app fragment, the update statements, the third app fragment with the
      scene total substituted, and `main`. */
  lemma GeneratedLayout(t: Templates, pages: seq<PageEntry>, code: seq<Fragment>)
    requires code == [Raw(t.imports), Raw(ReplaceStr(t.app1, "name", "\"opmark\""))] + SetupCode(pages)
                     + [Raw(t.app2)] + UpdateCode(pages, t.app3) + [Raw(t.main)]
    ensures Render(code) == t.imports + ReplaceStr(t.app1, "name", "\"opmark\"") + Render(SetupCode(pages))
                            + t.app2 + Render(PagesCode(pages))
                            + ReplaceStr(t.app3, "max_scene_idx", NatToString(SceneCount(pages))) + t.main
  {
    var app1 := ReplaceStr(t.app1, "name", "\"opmark\"");
    var app3 := ReplaceStr(t.app3, "max_scene_idx", NatToString(SceneCount(pages)));
    RenderPieces(t.imports, app1, SetupCode(pages), t.app2, PagesCode(pages), app3, t.main);
  }

  /** `GeneratedLayout` over abstract pieces. */
  lemma RenderPieces(imports: string, app1: string, setup: seq<Fragment>, app2: string,
                     update: seq<Fragment>, app3: string, main: string)
    ensures Render([Raw(imports), Raw(app1)] + setup + [Raw(app2)] + (update + [Raw(app3)]) + [Raw(main)])
            == imports + app1 + Render(setup) + app2 + Render(update) + app3 + main
  {
    var p2 := [Raw(imports), Raw(app1)];
    var p3 := p2 + setup;
    var p4 := p3 + [Raw(app2)];
    var p5 := p4 + update;
    var p6 := p5 + [Raw(app3)];
    assert Render(p2) == imports + app1 by {
      assert p2 == [Raw(imports)] + [Raw(app1)];
      RenderOne(Raw(imports));
      RenderOne(Raw(app1));
      RenderAppend([Raw(imports)], [Raw(app1)]);
    }
    assert Render(p3) == imports + app1 + Render(setup) by {
      RenderAppend(p2, setup);
    }
    assert Render(p4) == imports + app1 + Render(setup) + app2 by {
      RenderSnoc(p3, Raw(app2));
    }
    assert Render(p5) == imports + app1 + Render(setup) + app2 + Render(update) by {
      RenderAppend(p4, update);
    }
    assert Render(p6) == imports + app1 + Render(setup) + app2 + Render(update) + app3 by {
      RenderSnoc(p5, Raw(app3));
    }
    assert Render(p6 + [Raw(main)]) == imports + app1 + Render(setup) + app2 + Render(update) + app3 + main by {
      RenderSnoc(p6, Raw(main));
    }
    AppendAssoc(p4, update, [Raw(app3)]);
  }

  lemma RenderSnoc(a: seq<Fragment>, f: Fragment)
    ensures Render(a + [f]) == Render(a) + FragmentText(f)
  {
    assert (a + [f])[..|a|] == a;
  }

  lemma RenderOne(f: Fragment)
    ensures Render([f]) == FragmentText(f)
  {
    assert [f][..0] == [];
  }

  // ---------------------------------------------------------------------------
  // Text is inlined verbatim between double quotes
  // ---------------------------------------------------------------------------

  /** A plain label creates its rich text from the text as it is; a
      hyperlink passes the text and the target as they are. */
  lemma LabelInlinesText(text: string, style: StyleText)
    ensures style.hyperlink == [] ==> Contains(Render(LabelCode(text, style).frags), Quoted(text))
    ensures style.hyperlink != [] ==>
              Contains(Render(LabelCode(text, style).frags), Quoted(text) + ", " + Quoted(style.hyperlink))
  {
    var fs := LabelCode(text, style).frags;
    RenderContains(fs, 0);
    if style.hyperlink == [] {
      assert fs[0] == RichTextNew(text);
      ContainsMiddle("let rich_text = egui::RichText::new(", Quoted(text), ");");
      ContainsTrans(Render(fs), FragmentText(fs[0]), Quoted(text));
    } else {
      var p := Quoted(text) + ", " + Quoted(style.hyperlink);
      assert fs[0] == Hyperlink(text, style.hyperlink);
      HyperlinkText(text, style.hyperlink);
      ContainsMiddle("ui.hyperlink_to(", p, ");");
      ContainsTrans(Render(fs), FragmentText(fs[0]), p);
    }
  }

  lemma CodeBlockInlinesCode(code: string)
    ensures Contains(Render(CodeBlockCode(code).frags), Quoted(code))
  {
    var fs := CodeBlockCode(code).frags;
    RenderContains(fs, 1);
    ContainsMiddle("let mut rect = ui.monospace(", Quoted(code), ").rect;");
    ContainsTrans(Render(fs), FragmentText(fs[1]), Quoted(code));
  }

  /** An image is looked up by its key and hovered with its title, by the
      emitter as written and by the corrected one. */
  lemma ImageInlinesKeyAndTitle(key: string, title: string, style: StyleImage)
    ensures Contains(Render(ImageCodeAsWritten(key, title, style).frags), Quoted(key))
    ensures Contains(Render(ImageCodeAsWritten(key, title, style).frags), Quoted(title))
    ensures Contains(Render(ImageCode(key, title, style).frags), Quoted(key))
    ensures Contains(Render(ImageCode(key, title, style).frags), Quoted(title))
  {
    ImageFragsInline(ImageCodeAsWritten(key, title, style).frags, key, title);
    ImageFragsInline(ImageCode(key, title, style).frags, key, title);
  }

  lemma ImageFragsInline(fs: seq<Fragment>, key: string, title: string)
    requires |fs| >= 2 && fs[0] == TextureGet(key) && fs[|fs| - 2] == ImageCall(title)
    ensures Contains(Render(fs), Quoted(key)) && Contains(Render(fs), Quoted(title))
  {
    var c := |fs| - 2;
    RenderContains(fs, 0);
    RenderContains(fs, c);
    ContainsMiddle("let texture = self.textures.get(&", Quoted(key), ".to_string()).unwrap();");
    ContainsMiddle("ui.image(texture.id, egui::Vec2::new(width, height)).on_hover_text(", Quoted(title), ");");
    ContainsTrans(Render(fs), FragmentText(fs[0]), Quoted(key));
    ContainsTrans(Render(fs), FragmentText(fs[c]), Quoted(title));
  }

  /** With no escaping, two different hyperlinks can produce the same
      statement: the quote characters of one text end up in the other's
      target. */
  lemma UnescapedHyperlinksCollide()
    ensures ("a\", \"b", "c") != ("a", "b\", \"c")
    ensures FragmentText(Hyperlink("a\", \"b", "c")) == FragmentText(Hyperlink("a", "b\", \"c"))
  {
    HyperlinkText("a\", \"b", "c");
    HyperlinkText("a", "b\", \"c");
    assert Quoted("a\", \"b") + ", " + Quoted("c") == Quoted("a") + ", " + Quoted("b\", \"c");
  }

  /** A hyperlink statement is the call around its two quoted arguments. */
  lemma HyperlinkText(text: string, url: string)
    ensures FragmentText(Hyperlink(text, url)) == "ui.hyperlink_to(" + (Quoted(text) + ", " + Quoted(url)) + ");"
  {
    AppendAssoc("ui.hyperlink_to(", Quoted(text), ", ");
    AppendAssoc("ui.hyperlink_to(", Quoted(text) + ", ", Quoted(url));
  }

  // ---------------------------------------------------------------------------
  // The transition guard
  // ---------------------------------------------------------------------------

  /** A slot's paint is hidden exactly below a positive border; border 0
      emits no guard at all. */
  lemma GuardHidesBelowBorder(border: nat, scene: nat)
    ensures TransitionGuard(border) == [] <==> border == 0
    ensures GuardHides(border, scene) <==> 0 < border && scene < border
  {
  }

  // ---------------------------------------------------------------------------
  // Scene numbering: each page owns an interval `[start, start + max + 1)`
  // ---------------------------------------------------------------------------

  lemma SceneStartStep(pages: seq<PageEntry>, i: nat)
    requires i < |pages|
    ensures SceneStart(pages, i + 1) == SceneStart(pages, i) + PageScenes(pages[i])
  {
    assert pages[..i + 1][..i] == pages[..i];
  }

  /** Later entries start no earlier than where an earlier entry ends. */
  lemma {:induction false} SceneStartsOrdered(pages: seq<PageEntry>, i: nat, j: nat)
    requires i < j <= |pages|
    ensures SceneStart(pages, i) + PageScenes(pages[i]) <= SceneStart(pages, j)
    decreases j - i
  {
    SceneStartStep(pages, i);
    if i + 1 < j {
      SceneStartsOrdered(pages, i + 1, j);
      SceneStartStep(pages, j - 1);
    }
  }

  lemma {:induction false} SceneStartsMonotone(pages: seq<PageEntry>, i: nat, j: nat)
    requires i <= j <= |pages|
    ensures SceneStart(pages, i) <= SceneStart(pages, j)
  {
    if i < j {
      SceneStartsOrdered(pages, i, j);
    }
  }

  /** In scene starts of a prefix are the scene starts of the whole. */
  lemma SceneStartOfPrefix(pages: seq<PageEntry>, n: nat, i: nat)
    requires i <= n <= |pages|
    ensures SceneStart(pages[..n], i) == SceneStart(pages, i)
  {
    assert pages[..n][..i] == pages[..i];
  }

  /** Every scene below the total belongs to some page's interval. */
  lemma {:induction false} ScenesCovered(pages: seq<PageEntry>, s: nat)
    requires s < SceneCount(pages)
    ensures exists i :: 0 <= i < |pages| && pages[i].page.Page?
                        && SceneStart(pages, i) <= s < SceneStart(pages, i) + pages[i].maxStep + 1
    decreases |pages|
  {
    var n := |pages| - 1;
    var init := pages[..n];
    if s < SceneCount(init) {
      ScenesCovered(init, s);
      var i :| 0 <= i < |init| && init[i].page.Page?
               && SceneStart(init, i) <= s < SceneStart(init, i) + init[i].maxStep + 1;
      SceneStartOfPrefix(pages, n, i);
    } else {
      assert SceneStart(pages, n) == SceneCount(init);
    }
  }

  /** No scene belongs to two pages: the intervals are disjoint. */
  lemma ScenePageUnique(pages: seq<PageEntry>, s: nat, i: nat, j: nat)
    requires i < |pages| && pages[i].page.Page? && SceneStart(pages, i) <= s < SceneStart(pages, i) + pages[i].maxStep + 1
    requires j < |pages| && pages[j].page.Page? && SceneStart(pages, j) <= s < SceneStart(pages, j) + pages[j].maxStep + 1
    ensures i == j
  {
    if i < j {
      SceneStartsOrdered(pages, i, j);
    } else if j < i {
      SceneStartsOrdered(pages, j, i);
    }
  }

  /** The last page's interval ends at the total the third app fragment
      receives, so every page's interval lies below it. */
  lemma SceneIntervalsBelowTotal(pages: seq<PageEntry>, i: nat)
    requires i < |pages|
    ensures SceneStart(pages, i) + PageScenes(pages[i]) <= SceneCount(pages)
  {
    SceneStartsOrdered(pages, i, |pages|);
    assert pages[..|pages|] == pages;
  }

  /** Three pages whose largest orders are 2, 0 and 1 own scenes `[0, 3)`,
      `[3, 4)` and `[4, 6)`, and the program is told there are 6 scenes. */
  lemma SceneExample(p0: seq<Mark>, p1: seq<Mark>, p2: seq<Mark>)
    ensures var pages := [PageEntry(Page(p0), 2, 0), PageEntry(Page(p1), 0, 0), PageEntry(Page(p2), 1, 0)];
            && SceneStart(pages, 0) == 0 && SceneStart(pages, 1) == 3 && SceneStart(pages, 2) == 4
            && SceneCount(pages) == 6
            && PageBlock(pages[1], SceneStart(pages, 1))[0] == PageGuard(3, 4)
  {
    var pages := [PageEntry(Page(p0), 2, 0), PageEntry(Page(p1), 0, 0), PageEntry(Page(p2), 1, 0)];
    assert pages[..0] == [];
    assert pages[..1][..0] == [];
    assert pages[..2][..1] == pages[..1];
    assert pages[..3] == pages;
    assert pages[..3][..2] == pages[..2];
  }

  // ---------------------------------------------------------------------------
  // `replace_str`
  // ---------------------------------------------------------------------------

  /** A template without the marker is pushed unchanged. */
  lemma ReplaceStrAbsent(src: string, from: string, to: string)
    requires !Contains(src, Marker(from))
    ensures ReplaceStr(src, from, to) == src
  {
    ReplaceAbsent(src, Marker(from), to);
  }

  /** A template holding the marker once has exactly that marker replaced. */
  lemma ReplaceStrOnce(a: string, from: string, b: string, to: string)
    requires forall i: nat :: i < |a| ==> !OccursAt(a + Marker(from) + b, Marker(from), i)
    requires !Contains(b, Marker(from))
    ensures ReplaceStr(a + Marker(from) + b, from, to) == a + to + b
  {
    ReplaceLeftmost(a, Marker(from), b, to);
    ReplaceAbsent(b, Marker(from), to);
  }

  // ---------------------------------------------------------------------------
  // Resources: each distinct image key once, in first-seen order
  // ---------------------------------------------------------------------------

  predicate Distinct(keys: seq<string>)
  {
    forall i, j :: 0 <= i < j < |keys| ==> keys[i] != keys[j]
  }

  /** Where `x` first occurs in `keys`. */
  function FirstIndex(keys: seq<string>, x: string): (r: nat)
    requires x in keys
    ensures r < |keys| && keys[r] == x && x !in keys[..r]
  {
    if keys[0] == x then 0
    else
      var r := FirstIndex(keys[1..], x) + 1;
      assert keys[..r] == [keys[0]] + keys[1..][..r - 1];
      r
  }

  lemma FirstIndexOfPrefix(keys: seq<string>, n: nat, x: string)
    requires n <= |keys| && x in keys[..n]
    ensures x in keys && FirstIndex(keys, x) == FirstIndex(keys[..n], x)
  {
    var r := FirstIndex(keys[..n], x);
    assert keys[..n][..r] == keys[..r];
  }

  /** `resources` keeps what it held and gains exactly the new keys. */
  lemma {:induction false} DedupIntoMembers(seen: seq<string>, keys: seq<string>)
    ensures |seen| <= |DedupInto(seen, keys)| && DedupInto(seen, keys)[..|seen|] == seen
    ensures forall x :: x in DedupInto(seen, keys) <==> x in seen || x in keys
    decreases |keys|
  {
    if keys != [] {
      var init := keys[..|keys| - 1];
      DedupIntoMembers(seen, init);
      assert keys == init + [keys[|keys| - 1]];
      var r := DedupInto(seen, init);
      assert (r + [keys[|keys| - 1]])[..|seen|] == r[..|seen|];
    }
  }

  lemma {:induction false} DedupIntoDistinct(seen: seq<string>, keys: seq<string>)
    requires Distinct(seen)
    ensures Distinct(DedupInto(seen, keys))
    decreases |keys|
  {
    if keys != [] {
      DedupIntoDistinct(seen, keys[..|keys| - 1]);
    }
  }

  /** The embedded keys in order of first appearance. */
  lemma {:induction false} DedupFirstSeenOrder(keys: seq<string>)
    ensures forall x :: x in Dedup(keys) ==> x in keys
    ensures forall i, j :: 0 <= i < j < |Dedup(keys)| ==>
              FirstIndex(keys, Dedup(keys)[i]) < FirstIndex(keys, Dedup(keys)[j])
    decreases |keys|
  {
    DedupIntoMembers([], keys);
    if keys != [] {
      var n := |keys| - 1;
      var init := keys[..n];
      var r := Dedup(init);
      DedupFirstSeenOrder(init);
      DedupIntoMembers([], init);
      forall x | x in r ensures FirstIndex(keys, x) == FirstIndex(init, x) {
        FirstIndexOfPrefix(keys, n, x);
      }
      if keys[n] !in r {
        assert keys[n] !in init;
        assert FirstIndex(keys, keys[n]) == n;
      }
    }
  }

  /** The keys a setup buffer inserts into the texture table, in order. */
  function Inserted(buffer: seq<Fragment>): seq<string>
    decreases |buffer|
  {
    if buffer == [] then []
    else
      var last := buffer[|buffer| - 1];
      Inserted(buffer[..|buffer| - 1]) + (if last.InsertTexture? then [last.key] else [])
  }

  lemma {:induction false} InsertedAppend(a: seq<Fragment>, b: seq<Fragment>)
    ensures Inserted(a + b) == Inserted(a) + Inserted(b)
    decreases |b|
  {
    if b == [] {
      assert a + b == a;
    } else {
      var b' := b[..|b| - 1];
      assert (a + b)[..|a + b| - 1] == a + b';
      InsertedAppend(a, b');
    }
  }

  lemma {:induction false} InsertedResources(keys: seq<string>)
    ensures Inserted(ResourcesCode(keys)) == keys
    decreases |keys|
  {
    if keys != [] {
      var init := keys[..|keys| - 1];
      InsertedResources(init);
      InsertedAppend(ResourcesCode(init), ResourceCode(keys[|keys| - 1]));
      var k := keys[|keys| - 1];
      assert Inserted([IncludeBytes(KeyPath(k))]) == [] by {
        assert [IncludeBytes(KeyPath(k))][..0] == [];
      }
      assert Inserted([IncludeBytes(KeyPath(k)), Fixed(LoadTexture)]) == [] by {
        assert [IncludeBytes(KeyPath(k)), Fixed(LoadTexture)][..1] == [IncludeBytes(KeyPath(k))];
      }
      assert ResourceCode(k)[..2] == [IncludeBytes(KeyPath(k)), Fixed(LoadTexture)];
      assert keys == init + [k];
    }
  }

  /** The generated setup inserts every image key of the document, each
      exactly once, in the order the keys are first met. */
  lemma SetupInsertsEachKeyOnce(pages: seq<PageEntry>)
    ensures var keys, ins := DocumentImageKeys(pages), Inserted(SetupCode(pages));
            && (forall x :: x in ins <==> x in keys)
            && Distinct(ins)
            && (forall i, j :: 0 <= i < j < |ins| ==> FirstIndex(keys, ins[i]) < FirstIndex(keys, ins[j]))
  {
    var keys := DocumentImageKeys(pages);
    InsertedResources(Dedup(keys));
    DedupIntoMembers([], keys);
    DedupIntoDistinct([], keys);
    DedupFirstSeenOrder(keys);
  }

  // ---------------------------------------------------------------------------
  // The image size declarations
  // ---------------------------------------------------------------------------

  predicate DeclaresWidth(f: Fragment)
  {
    f.WidthPx? || f == Fixed(NaturalWidth)
  }

  predicate DeclaresHeight(f: Fragment)
  {
    f.HeightPx? || f == Fixed(ScaledHeight) || f == Fixed(NaturalHeight)
  }

  lemma PrefixOfConcat(p: string, x: string)
    ensures IsPrefix(p, p + x)
  {
    assert (p + x)[..|p|] == p;
  }

  /** The fragments counted as width declarations are `let width`
      statements. */
  lemma WidthDeclarationTexts(w: nat)
    ensures DeclaresWidth(WidthPx(w)) && IsPrefix("let width = ", FragmentText(WidthPx(w)))
    ensures DeclaresWidth(Fixed(NaturalWidth)) && IsPrefix("let width = ", FragmentText(Fixed(NaturalWidth)))
  {
    assert FragmentText(WidthPx(w)) == "let width = " + (PixelLiteral(w) + ";");
    PrefixOfConcat("let width = ", PixelLiteral(w) + ";");
    PrefixOfConcat("let width = ", "texture.size.x;");
  }

  /** The fragments counted as height declarations are `let height`
      statements. */
  lemma HeightDeclarationTexts(h: nat)
    ensures DeclaresHeight(HeightPx(h)) && IsPrefix("let height = ", FragmentText(HeightPx(h)))
    ensures DeclaresHeight(Fixed(NaturalHeight)) && IsPrefix("let height = ", FragmentText(Fixed(NaturalHeight)))
    ensures DeclaresHeight(Fixed(ScaledHeight)) && IsPrefix("let height = ", FragmentText(Fixed(ScaledHeight)))
  {
    assert FragmentText(HeightPx(h)) == "let height = " + (PixelLiteral(h) + ";");
    PrefixOfConcat("let height = ", PixelLiteral(h) + ";");
    PrefixOfConcat("let height = ", "texture.size.y;");
    PrefixOfConcat("let height = ", "width / texture.size.x * texture.size.y;");
  }

  /** As written, an image with no width draws with `height` while no
      statement before it declares `height`. */
  lemma AsWrittenImageLacksHeight(key: string, title: string, style: StyleImage)
    requires style.width.None?
    ensures var fs := ImageCodeAsWritten(key, title, style).frags;
            && (exists c :: 0 <= c < |fs| && fs[c].ImageCall?)
            && forall i :: 0 <= i < |fs| ==> !DeclaresHeight(fs[i])
  {
    var fs := ImageCodeAsWritten(key, title, style).frags;
    assert fs == [TextureGet(key), Fixed(NaturalWidth), LayoutDecl(style.alignH), Fixed(WithLayoutOpen), ImageCall(title), Fixed(CloseClosure)];
    assert fs[4].ImageCall?;
  }

  /** An image as written and corrected: the statements differ exactly when
      no width is given. */
  lemma ImageCorrectionOnlyWithoutWidth(key: string, title: string, style: StyleImage)
    ensures ImageCodeAsWritten(key, title, style) == ImageCode(key, title, style) <==> style.width.Some?
  {
    if style.width.None? {
      assert |ImageCodeAsWritten(key, title, style).frags| != |ImageCode(key, title, style).frags|;
    }
  }

  /** Corrected, the image call always follows one declaration of `width`
      and one of `height`. */
  lemma ImageDeclaresSize(key: string, title: string, style: StyleImage)
    ensures var fs := ImageCode(key, title, style).frags;
            forall c :: 0 <= c < |fs| && fs[c].ImageCall? ==>
              && (exists w :: 0 <= w < c && DeclaresWidth(fs[w]))
              && (exists h :: 0 <= h < c && DeclaresHeight(fs[h]))
  {
    var fs := ImageCode(key, title, style).frags;
    assert DeclaresWidth(fs[1]) && DeclaresHeight(fs[2]);
    assert forall c :: 0 <= c < |fs| && fs[c].ImageCall? ==> c == |fs| - 2;
  }
}
