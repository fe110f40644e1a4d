/** The interactive viewer `App` of src/app.rs: the navigation fields that
    `next` and `prev` update in place, the texture cache that `update` fills
    lazily, and one frame of `update` — walking the current page's
    transitions and marks in declaration order, giving every mark its layout
    slot, hiding the paint of marks whose transition order exceeds the
    page's step, ending the row after a mark whose helper says so, and then
    applying the click and key input. The drawing surface is replaced by the
    trace of instructions the frame issues; decoding an image is a parameter
    that may fail. */
module Viewer {
  import opened Wrappers
  import opened Document
  import opened Navigation
  import opened Dispatch
  import opened Seqs

  /** An uploaded texture (`Texture { id, size }`); the handle is opaque here. */
  datatype Texture = Texture(id: nat)

  datatype Key = Escape | ArrowRight | ArrowDown | ArrowLeft | ArrowUp

  /** What `update` reads from the frame's input: whether the page was
      clicked, and which keys were released. */
  datatype Input = Input(clicked: bool, released: set<Key>)

  /** The navigation actions one frame performs, in order: a click first
      (src/app.rs:289-292), then at most one key, Escape taking precedence
      over the arrows (src/app.rs:294-301). So a click and an arrow key in the
      same frame both take effect. */
  function Actions(input: Input): (acts: seq<Action>)
    ensures |acts| <= 2
    ensures input.clicked ==> |acts| >= 1 && acts[0] == NextAction
    ensures Quit in acts <==> Escape in input.released
    ensures PrevAction in acts <==>
      Escape !in input.released && ArrowRight !in input.released && ArrowDown !in input.released
      && (ArrowLeft in input.released || ArrowUp in input.released)
    ensures !input.clicked && input.released == {} ==> acts == []
    ensures |acts| == (if input.clicked then 1 else 0) + (if input.released != {} then 1 else 0)
    ensures Escape !in input.released && (ArrowRight in input.released || ArrowDown in input.released)
            ==> acts[|acts| - 1] == NextAction
  {
    SomeKeyReleased(input.released);
    ClickActions(input) + KeyActions(input)
  }

  /** A non-empty set of released keys holds one of the five keys. */
  lemma SomeKeyReleased(released: set<Key>)
    ensures released != {} <==>
      Escape in released || ArrowRight in released || ArrowDown in released || ArrowLeft in released || ArrowUp in released
  {
    if released != {} {
      var k :| k in released;
      match k
      case Escape =>
      case ArrowRight =>
      case ArrowDown =>
      case ArrowLeft =>
      case ArrowUp =>
    }
  }

  function ClickActions(input: Input): seq<Action>
  {
    if input.clicked then [NextAction] else []
  }

  function KeyActions(input: Input): seq<Action>
  {
    if Escape in input.released then [Quit]
    else if ArrowRight in input.released || ArrowDown in input.released then [NextAction]
    else if ArrowLeft in input.released || ArrowUp in input.released then [PrevAction]
    else []
  }

  /** What the frame asks of the layout: a horizontal slot per mark, whose
      paint is shown or suppressed, and the end of a row. */
  datatype Instr = HorizontalSlot(visible: bool, ops: seq<Op>) | EndRow

  function SlotTrace(m: Mark, order: nat, step: nat): seq<Instr>
  {
    var d := DispatchMark(m);
    [HorizontalSlot(Revealed(order, step), d.ops)] + (if d.lineBreak then [EndRow] else [])
  }

  function MarksTrace(marks: seq<Mark>, order: nat, step: nat): seq<Instr>
    decreases |marks|
  {
    if marks == [] then []
    else MarksTrace(marks[..|marks| - 1], order, step) + SlotTrace(marks[|marks| - 1], order, step)
  }

  function TransitionTrace(t: Mark, step: nat): seq<Instr>
  {
    if t.Transition? then MarksTrace(t.marks, t.order, step) else []
  }

  function TransitionsTrace(transitions: seq<Mark>, step: nat): seq<Instr>
    decreases |transitions|
  {
    if transitions == [] then []
    else TransitionsTrace(transitions[..|transitions| - 1], step) + TransitionTrace(transitions[|transitions| - 1], step)
  }

  /** The instructions one frame issues for a navigation entry at its step. */
  function PageTrace(e: PageEntry): seq<Instr>
  {
    if e.page.Page? then TransitionsTrace(e.page.transitions, e.step) else []
  }

  /** The number of horizontal slots a trace asks for. */
  function Slots(trace: seq<Instr>): nat
    decreases |trace|
  {
    if trace == [] then 0
    else Slots(trace[..|trace| - 1]) + (if trace[|trace| - 1].HorizontalSlot? then 1 else 0)
  }

  lemma {:induction false} SlotsAppend(a: seq<Instr>, b: seq<Instr>)
    ensures Slots(a + b) == Slots(a) + Slots(b)
    decreases |b|
  {
    if b == [] {
      assert a + b == a;
    } else {
      assert (a + b)[..|a + b| - 1] == a + b[..|b| - 1];
      SlotsAppend(a, b[..|b| - 1]);
    }
  }

  /** Every mark gets exactly one slot, whether or not its paint is shown,
      and the paint of every slot is shown exactly when the transition's
      order is revealed at the step. */
  lemma {:induction false} MarksTraceSlots(marks: seq<Mark>, order: nat, step: nat)
    ensures Slots(MarksTrace(marks, order, step)) == |marks|
    ensures forall i :: 0 <= i < |MarksTrace(marks, order, step)| && MarksTrace(marks, order, step)[i].HorizontalSlot? ==>
      MarksTrace(marks, order, step)[i].visible == Revealed(order, step)
    decreases |marks|
  {
    if marks != [] {
      var init, last := marks[..|marks| - 1], marks[|marks| - 1];
      MarksTraceSlots(init, order, step);
      var slot := SlotTrace(last, order, step);
      SlotsAppend(MarksTrace(init, order, step), slot);
      SlotTraceSlots(last, order, step);
    }
  }

  lemma SlotTraceSlots(m: Mark, order: nat, step: nat)
    ensures Slots(SlotTrace(m, order, step)) == 1
  {
    var d := DispatchMark(m);
    var h := [HorizontalSlot(Revealed(order, step), d.ops)];
    assert h[..0] == [];
    assert Slots(h) == 1;
    if d.lineBreak {
      assert (h + [EndRow])[..1] == h;
    } else {
      assert SlotTrace(m, order, step) == h;
    }
  }

  // ---------------------------------------------------------------------------
  // The texture cache: insert only when the key is absent
  // ---------------------------------------------------------------------------

  datatype Cache = Filled(textures: map<string, Texture>) | LoadFailed(key: string)

  /** The cache after the image keys `keys` have been met in order, starting
      from `c`: a key already present is left alone, an absent one is loaded
      with `load`; a load that fails ends the frame (the source's `expect`). */
  function FillCache(c: map<string, Texture>, keys: seq<string>, load: string -> Option<Texture>): Cache
    decreases |keys|
  {
    if keys == [] then Filled(c)
    else
      match FillCache(c, keys[..|keys| - 1], load)
      case LoadFailed(bad) => LoadFailed(bad)
      case Filled(t) =>
        var k := keys[|keys| - 1];
        if k in t then Filled(t)
        else match load(k)
          case None => LoadFailed(k)
          case Some(tex) => Filled(t[k := tex])
  }

  /** What filling the cache guarantees: entries already cached are never
      replaced, every key met is cached afterwards, nothing else is added,
      and each added entry is what `load` gave for its key; a failure names
      a key that was met, was not cached, and did not load. */
  lemma {:induction false} FillCacheSound(c: map<string, Texture>, keys: seq<string>, load: string -> Option<Texture>)
    ensures var r := FillCache(c, keys, load);
      && (r.Filled? ==> forall k :: k in c ==> k in r.textures && r.textures[k] == c[k])
      && (r.Filled? ==> forall k :: k in keys ==> k in r.textures)
      && (r.Filled? ==> forall k :: k in r.textures ==> k in c || k in keys)
      && (r.Filled? ==> forall k :: k in r.textures && k !in c ==> load(k) == Some(r.textures[k]))
      && (r.LoadFailed? ==> r.key in keys && r.key !in c && load(r.key) == None)
    decreases |keys|
  {
    if keys != [] {
      var init := keys[..|keys| - 1];
      assert keys == init + [keys[|keys| - 1]];
      FillCacheSound(c, init, load);
    }
  }

  /** Once a load has failed the frame stays failed, whatever keys follow. */
  lemma {:induction false} FillCacheFailureStays(c: map<string, Texture>, a: seq<string>, b: seq<string>, load: string -> Option<Texture>)
    requires FillCache(c, a, load).LoadFailed?
    requires a <= b
    ensures FillCache(c, b, load) == FillCache(c, a, load)
    decreases |b|
  {
    if |b| > |a| {
      assert a <= b[..|b| - 1];
      FillCacheFailureStays(c, a, b[..|b| - 1], load);
    } else {
      assert a == b;
    }
  }

  lemma FillCacheStep(c: map<string, Texture>, keys: seq<string>, k: string, load: string -> Option<Texture>)
    ensures FillCache(c, keys + [k], load) ==
      match FillCache(c, keys, load)
      case LoadFailed(bad) => LoadFailed(bad)
      case Filled(t) =>
        if k in t then Filled(t)
        else match load(k)
          case None => LoadFailed(k)
          case Some(tex) => Filled(t[k := tex])
  {
    assert (keys + [k])[..|keys|] == keys;
  }

  /** The outcome of one frame. */
  datatype FrameResult =
    | Skipped                                  // no page to show
    | Shown(trace: seq<Instr>, quit: bool)     // drawn; `quit` asks the host to close
    | Panicked(key: string)                    // the image of this key failed to load

  class App {
    var currentPageIdx: nat
    var pages: seq<PageEntry>
    var title: string
    var textures: map<string, Texture>

    function Nav(): Nav
      reads this
    {
      Navigation.Nav(currentPageIdx, pages)
    }

    ghost predicate Valid()
      reads this
    {
      if pages == [] then currentPageIdx == 0 else WellFormed(Nav())
    }

    /** `App::new`: `Parser::into_pages` hands over the entries, every step at 0. */
    constructor (title: string, pages: seq<PageEntry>)
      requires forall j :: 0 <= j < |pages| ==> pages[j].step == 0
      ensures Valid()
      ensures currentPageIdx == 0 && this.pages == pages && this.title == title && textures == map[]
    {
      this.currentPageIdx := 0;
      this.pages := pages;
      this.title := title;
      this.textures := map[];
    }

    method Next()
      requires Valid() && currentPageIdx < |pages|
      modifies this
      ensures Valid()
      ensures Nav() == Navigation.Next(old(Nav()))
      ensures title == old(title) && textures == old(textures)
    {
      var e := pages[currentPageIdx];
      if e.page.Page? {
        if e.maxStep > 1 && e.step < e.maxStep {
          pages := pages[currentPageIdx := e.(step := e.step + 1)];
          return;
        }
      }
      if currentPageIdx < |pages| - 1 {
        currentPageIdx := currentPageIdx + 1;
      }
    }

    method Prev()
      requires Valid() && currentPageIdx < |pages|
      modifies this
      ensures Valid()
      ensures Nav() == Navigation.Prev(old(Nav()))
      ensures title == old(title) && textures == old(textures)
    {
      var e := pages[currentPageIdx];
      if e.step > 0 {
        pages := pages[currentPageIdx := e.(step := e.step - 1)];
        return;
      }
      if currentPageIdx > 0 {
        currentPageIdx := currentPageIdx - 1;
      }
    }

    /** The drawing part of one frame of `update` for entry `e`: the trace
        of the page, with the texture cache filled on the way. */
    method DrawEntry(e: PageEntry, load: string -> Option<Texture>) returns (trace: seq<Instr>, failed: Option<string>)
      modifies this`textures
      ensures FillCache(old(textures), EntryImageKeys(e), load).LoadFailed? ==>
        failed == Some(FillCache(old(textures), EntryImageKeys(e), load).key)
      ensures FillCache(old(textures), EntryImageKeys(e), load).Filled? ==>
        failed == None && textures == FillCache(old(textures), EntryImageKeys(e), load).textures && trace == PageTrace(e)
    {
      trace := [];
      failed := None;
      if e.page.Page? {
        var transitions := e.page.transitions;
        var i := 0;
        while i < |transitions|
          invariant 0 <= i <= |transitions| && failed == None
          invariant trace == TransitionsTrace(transitions[..i], e.step)
          invariant FillCache(old(textures), TransitionsImageKeys(transitions[..i]), load) == Filled(textures)
        {
          assert transitions[..i + 1][..i] == transitions[..i];
          if transitions[i].Transition? {
            var marks := transitions[i].marks;
            ghost var before := TransitionsImageKeys(transitions[..i]);
            var more;
            more, failed := DrawMarks(marks, transitions[i].order, e.step, load, old(textures), before);
            if failed.Some? {
              AbortedFrame(old(textures), e, i, load);
              return;
            }
            trace := trace + more;
            assert TransitionsImageKeys(transitions[..i + 1]) == before + MarksImageKeys(marks);
          } else {
            assert TransitionsImageKeys(transitions[..i + 1]) == TransitionsImageKeys(transitions[..i]);
          }
          i := i + 1;
        }
        assert transitions[..i] == transitions;
      }
    }

    /** The inner loop of `update` over one transition's marks
        (src/app.rs:240-276). */
    method DrawMarks(marks: seq<Mark>, order: nat, step: nat, load: string -> Option<Texture>,
                     ghost c0: map<string, Texture>, ghost before: seq<string>)
      returns (trace: seq<Instr>, failed: Option<string>)
      requires FillCache(c0, before, load) == Filled(textures)
      modifies this`textures
      ensures failed.None? ==> trace == MarksTrace(marks, order, step)
      ensures failed.None? ==> FillCache(c0, before + MarksImageKeys(marks), load) == Filled(textures)
      ensures failed.Some? ==> FillCache(c0, before + MarksImageKeys(marks), load) == LoadFailed(failed.value)
    {
      assert before + MarksImageKeys(marks[..0]) == before;
      trace := [];
      failed := None;
      var k := 0;
      while k < |marks|
        invariant 0 <= k <= |marks| && failed == None
        invariant trace == MarksTrace(marks[..k], order, step)
        invariant FillCache(c0, before + MarksImageKeys(marks[..k]), load) == Filled(textures)
      {
        ghost var seen := before + MarksImageKeys(marks[..k]);
        MarksImageKeysStep(marks, k);
        MarksTraceStep(marks, k, order, step);
        AppendAssoc(before, MarksImageKeys(marks[..k]), MarkImageKeys(marks[k]));
        var slot;
        slot, failed := DrawMark(marks[k], order, step, load, c0, seen);
        if failed.Some? {
          MarksFailureStays(c0, before, marks, k + 1, load);
          return;
        }
        trace := trace + slot;
        k := k + 1;
      }
      assert marks[..k] == marks;
    }

    /** The body of that loop for one mark: its texture cached first when
        it is an image, then a slot whose paint is hidden when
        `order > step`, then the end of the row when its helper says so. */
    method DrawMark(mark: Mark, order: nat, step: nat, load: string -> Option<Texture>,
                    ghost c0: map<string, Texture>, ghost seen: seq<string>)
      returns (slot: seq<Instr>, failed: Option<string>)
      requires FillCache(c0, seen, load) == Filled(textures)
      modifies this`textures
      ensures failed.None? ==> slot == SlotTrace(mark, order, step)
      ensures failed.None? ==> FillCache(c0, seen + MarkImageKeys(mark), load) == Filled(textures)
      ensures failed.Some? ==> FillCache(c0, seen + MarkImageKeys(mark), load) == LoadFailed(failed.value)
    {
      failed := None;
      slot := [];
      if mark.Image? {
        var ok := CacheTexture(mark.key, load, c0, seen);
        if !ok {
          failed := Some(mark.key);
          return;
        }
      } else {
        assert seen + MarkImageKeys(mark) == seen;
      }
      var visible := !(order > step);
      var d := DispatchMark(mark);
      slot := [HorizontalSlot(visible, d.ops)] + (if d.lineBreak then [EndRow] else []);
    }

    /** The texture-cache step for one image mark (src/app.rs:245-251):
        load and insert only when the key is absent. */
    method CacheTexture(key: string, load: string -> Option<Texture>, ghost c0: map<string, Texture>, ghost seen: seq<string>)
      returns (ok: bool)
      requires FillCache(c0, seen, load) == Filled(textures)
      modifies this`textures
      ensures ok ==> FillCache(c0, seen + [key], load) == Filled(textures) && key in textures
      ensures ok ==> forall k :: k in old(textures) ==> k in textures && textures[k] == old(textures)[k]
      ensures !ok ==> FillCache(c0, seen + [key], load) == LoadFailed(key)
    {
      FillCacheStep(c0, seen, key, load);
      ok := true;
      if key !in textures {
        var loaded := load(key);
        if loaded.None? {
          return false;
        }
        textures := textures[key := loaded.value];
      }
    }

    /** One frame of `update`. */
    method Update(input: Input, load: string -> Option<Texture>) returns (out: FrameResult)
      requires Valid()
      modifies this
      ensures Valid() && title == old(title)
      ensures old(currentPageIdx) >= |old(pages)| ==>
        out == Skipped && Nav() == old(Nav()) && textures == old(textures)
      ensures old(currentPageIdx) < |old(pages)| ==>
        var e := old(pages)[old(currentPageIdx)];
        match FillCache(old(textures), EntryImageKeys(e), load)
        case LoadFailed(k) => out == Panicked(k) && Nav() == old(Nav())
        case Filled(c) =>
          && textures == c
          && out == Shown(PageTrace(e), Escape in input.released)
          && Nav() == Run(old(Nav()), Actions(input))
    {
      if currentPageIdx >= |pages| {
        return Skipped;
      }
      var e := pages[currentPageIdx];
      var trace, failed := DrawEntry(e, load);
      if failed.Some? {
        return Panicked(failed.value);
      }
      var quit := false;
      ghost var start := Nav();
      if input.clicked {
        Next();
      }
      ghost var afterClick := Nav();
      if Escape in input.released {
        quit := true;
      } else if ArrowRight in input.released || ArrowDown in input.released {
        Next();
      } else if ArrowLeft in input.released || ArrowUp in input.released {
        Prev();
      }
      assert afterClick == ClickEffect(start, input);
      assert Nav() == KeyEffect(afterClick, input);
      RunFrameActions(start, input);
      out := Shown(trace, quit);
    }
  }

  /** A load failing at mark `k - 1` fails the whole transition. */
  lemma MarksFailureStays(c: map<string, Texture>, before: seq<string>, marks: seq<Mark>, k: nat, load: string -> Option<Texture>)
    requires k <= |marks|
    requires FillCache(c, before + MarksImageKeys(marks[..k]), load).LoadFailed?
    ensures FillCache(c, before + MarksImageKeys(marks), load) == FillCache(c, before + MarksImageKeys(marks[..k]), load)
  {
    MarksImageKeysPrefix(marks, k);
    FillCacheFailureStays(c, before + MarksImageKeys(marks[..k]), before + MarksImageKeys(marks), load);
  }

  lemma MarksTraceStep(marks: seq<Mark>, k: nat, order: nat, step: nat)
    requires k < |marks|
    ensures MarksTrace(marks[..k + 1], order, step) == MarksTrace(marks[..k], order, step) + SlotTrace(marks[k], order, step)
  {
    assert marks[..k + 1][..k] == marks[..k];
  }

  /** A load failing inside transition `i` is the failure of the whole
      page's cache fill. */
  lemma AbortedFrame(c: map<string, Texture>, e: PageEntry, i: nat, load: string -> Option<Texture>)
    requires e.page.Page? && i < |e.page.transitions| && e.page.transitions[i].Transition?
    requires FillCache(c, TransitionsImageKeys(e.page.transitions[..i]) + MarksImageKeys(e.page.transitions[i].marks), load).LoadFailed?
    ensures FillCache(c, EntryImageKeys(e), load) ==
      FillCache(c, TransitionsImageKeys(e.page.transitions[..i]) + MarksImageKeys(e.page.transitions[i].marks), load)
  {
    var ts := e.page.transitions;
    assert ts[..i + 1][..i] == ts[..i];
    TransitionsImageKeysPrefix(ts, i + 1);
    FillCacheFailureStays(c, TransitionsImageKeys(ts[..i + 1]), TransitionsImageKeys(ts), load);
  }

  /** The click-then-key sequence of `update` is a run of `Actions(input)`. */
  lemma RunFrameActions(start: Nav, input: Input)
    requires start.idx < |start.pages|
    ensures Run(start, Actions(input)) == KeyEffect(ClickEffect(start, input), input)
  {
    var click, key := ClickActions(input), KeyActions(input);
    assert Actions(input) == click + key;
    RunAppend(start, click, key);
    ClickRun(start, input);
    KeyRun(Run(start, click), input);
  }

  lemma ClickRun(s: Nav, input: Input)
    requires s.idx < |s.pages|
    ensures Run(s, ClickActions(input)) == ClickEffect(s, input)
  {
    RunAtMostOne(s, ClickActions(input));
  }

  lemma KeyRun(s: Nav, input: Input)
    requires s.idx < |s.pages|
    ensures Run(s, KeyActions(input)) == KeyEffect(s, input)
  {
    RunAtMostOne(s, KeyActions(input));
  }

  /** The effect of the click branch of `update` (src/app.rs:289-292). */
  function ClickEffect(s: Nav, input: Input): (r: Nav)
    requires s.idx < |s.pages|
    ensures r.idx < |r.pages|
  {
    if input.clicked then Navigation.Next(s) else s
  }

  /** The effect of the key branch of `update` (src/app.rs:294-301);
      Escape only asks the host to close. */
  function KeyEffect(s: Nav, input: Input): (r: Nav)
    requires s.idx < |s.pages|
  {
    if Escape in input.released then s
    else if ArrowRight in input.released || ArrowDown in input.released then Navigation.Next(s)
    else if ArrowLeft in input.released || ArrowUp in input.released then Navigation.Prev(s)
    else s
  }

  /** A run of no action or of one action. */
  lemma RunAtMostOne(s: Nav, acts: seq<Action>)
    requires s.idx < |s.pages| && |acts| <= 1
    ensures acts == [] ==> Run(s, acts) == s
    ensures |acts| == 1 ==> Run(s, acts) == Step(s, acts[0])
  {
    if |acts| == 1 {
      assert acts[1..] == [];
    }
  }

  lemma {:induction false} RunAppend(s: Nav, a: seq<Action>, b: seq<Action>)
    requires s.idx < |s.pages|
    ensures Run(s, a + b) == Run(Run(s, a), b)
    decreases |a|
  {
    if a != [] {
      assert (a + b)[1..] == a[1..] + b;
      RunAppend(Step(s, a[0]), a[1..], b);
    } else {
      assert a + b == b;
    }
  }
}
