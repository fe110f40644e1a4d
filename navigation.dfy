/** The slideshow's navigation state machine (`App::next` and `App::prev` in
    src/app.rs) stated on values: the index of the current page together with
    the `(page, max_transition_idx, transition_idx)` list, whose
    `transition_idx` is the reveal step each page remembers on its own.
    The `App` class in module Viewer performs these transitions in place and
    is proved to agree with them. */
module Navigation {
  import opened Document

  datatype Nav = Nav(idx: nat, pages: seq<PageEntry>)

  /** A mark of a transition with this `order` is painted at reveal step
      `step` (src/app.rs:237 hides it when `order > transition_idx`). */
  predicate Revealed(order: nat, step: nat)
  {
    !(order > step)
  }

  /** `next` reveals one more step on the current page rather than leaving it.
      The threshold is `max_transition_idx > 1`, so a page whose largest
      order is 1 never reveals its step 1 through `next`. */
  predicate Reveals(e: PageEntry)
  {
    e.page.Page? && e.maxStep > 1 && e.step < e.maxStep
  }

  /** Every entry keeps its page and its `max_transition_idx`. */
  ghost predicate SameDocument(s: Nav, r: Nav)
  {
    |r.pages| == |s.pages|
    && forall j :: 0 <= j < |s.pages| ==>
         r.pages[j].page == s.pages[j].page && r.pages[j].maxStep == s.pages[j].maxStep
  }

  /** The step an entry may hold: never above its maximum, and above 0 only
      on a page that `next` can reveal steps of. */
  predicate StepOk(e: PageEntry)
  {
    e.step <= e.maxStep && (e.step > 0 ==> e.page.Page? && e.maxStep > 1)
  }

  /** The invariant of a navigation state reachable from `App::new`. */
  ghost predicate WellFormed(s: Nav)
  {
    s.idx < |s.pages| && forall j :: 0 <= j < |s.pages| ==> StepOk(s.pages[j])
  }

  /** The state `App::new` starts from: first page, every step 0. */
  ghost predicate Initial(s: Nav)
  {
    s.idx == 0 && |s.pages| > 0 && forall j :: 0 <= j < |s.pages| ==> s.pages[j].step == 0
  }

  function Next(s: Nav): (r: Nav)
    requires s.idx < |s.pages|
    ensures r.idx < |r.pages| && SameDocument(s, r)
    ensures forall j :: 0 <= j < |s.pages| && j != s.idx ==> r.pages[j] == s.pages[j]
    ensures Reveals(s.pages[s.idx]) <==> r.pages != s.pages
    ensures Reveals(s.pages[s.idx]) ==> r.idx == s.idx && r.pages[s.idx].step == s.pages[s.idx].step + 1
    ensures !Reveals(s.pages[s.idx]) && s.idx + 1 < |s.pages| ==> r.idx == s.idx + 1
    ensures !Reveals(s.pages[s.idx]) && s.idx + 1 == |s.pages| ==> r == s
    ensures WellFormed(s) ==> WellFormed(r)
  {
    var e := s.pages[s.idx];
    if Reveals(e) then
      Nav(s.idx, s.pages[s.idx := e.(step := e.step + 1)])
    else if s.idx < |s.pages| - 1 then
      Nav(s.idx + 1, s.pages)
    else
      s
  }

  function Prev(s: Nav): (r: Nav)
    requires s.idx < |s.pages|
    ensures r.idx < |r.pages| && SameDocument(s, r)
    ensures forall j :: 0 <= j < |s.pages| && j != s.idx ==> r.pages[j] == s.pages[j]
    ensures s.pages[s.idx].step > 0 ==> r.idx == s.idx && r.pages[s.idx].step == s.pages[s.idx].step - 1
    ensures s.pages[s.idx].step == 0 ==> r.pages == s.pages && r.idx == if s.idx > 0 then s.idx - 1 else 0
    ensures WellFormed(s) ==> WellFormed(r)
  {
    var e := s.pages[s.idx];
    if e.step > 0 then
      Nav(s.idx, s.pages[s.idx := e.(step := e.step - 1)])
    else if s.idx > 0 then
      Nav(s.idx - 1, s.pages)
    else
      s
  }

  /** What one frame's input asks of the state machine. `Quit` is handled by
      the host window and leaves the navigation state alone. */
  datatype Action = NextAction | PrevAction | Quit

  function Step(s: Nav, a: Action): (r: Nav)
    requires s.idx < |s.pages|
    ensures r.idx < |r.pages| && SameDocument(s, r)
  {
    match a
    case NextAction => Next(s)
    case PrevAction => Prev(s)
    case Quit => s
  }

  function Run(s: Nav, acts: seq<Action>): (r: Nav)
    requires s.idx < |s.pages|
    ensures r.idx < |r.pages| && |r.pages| == |s.pages|
    decreases |acts|
  {
    if acts == [] then s else Run(Step(s, acts[0]), acts[1..])
  }

  /** The page indices a run is on before each of its actions. */
  function Visited(s: Nav, acts: seq<Action>): set<nat>
    requires s.idx < |s.pages|
    decreases |acts|
  {
    if acts == [] then {} else {s.idx} + Visited(Step(s, acts[0]), acts[1..])
  }

  function Repeat(a: Action, k: nat): (r: seq<Action>)
    ensures |r| == k && forall i :: 0 <= i < k ==> r[i] == a
  {
    seq(k, _ => a)
  }

  // ---------------------------------------------------------------------------
  // Bounds: every run from a well-formed state stays in bounds
  // ---------------------------------------------------------------------------

  lemma InitialIsWellFormed(s: Nav)
    requires Initial(s)
    ensures WellFormed(s)
  {
  }

  /** Whatever sequence of clicks and keys is applied, the current page index
      stays below the number of pages and every step stays within
      `0..=max_transition_idx` (and at 0 on pages `next` cannot reveal). */
  lemma {:induction false} RunStaysWellFormed(s: Nav, acts: seq<Action>)
    requires WellFormed(s)
    ensures WellFormed(Run(s, acts)) && SameDocument(s, Run(s, acts))
    decreases |acts|
  {
    if acts != [] {
      var t := Step(s, acts[0]);
      assert WellFormed(t);
      RunStaysWellFormed(t, acts[1..]);
    }
  }

  /** A page whose largest order is at most 1 is never seen at a step other
      than 0 from `App::new` on, so a mark with order 1 or more on it is never
      painted by the interactive viewer. */
  lemma SmallPageNeverRevealed(s: Nav, acts: seq<Action>, j: nat, order: nat)
    requires Initial(s)
    requires j < |s.pages| && s.pages[j].maxStep <= 1 && order >= 1
    ensures Run(s, acts).pages[j].step == 0
    ensures !Revealed(order, Run(s, acts).pages[j].step)
  {
    RunStaysWellFormed(s, acts);
  }

  // ---------------------------------------------------------------------------
  // Per-page memory: only the current page's step ever changes
  // ---------------------------------------------------------------------------

  /** A page the run never stands on keeps its entry, step included, so a
      page that is left and later revisited resumes at the step it had. */
  lemma {:induction false} UnvisitedPageKept(s: Nav, acts: seq<Action>, j: nat)
    requires s.idx < |s.pages| && j < |s.pages|
    requires j !in Visited(s, acts)
    ensures Run(s, acts).pages[j] == s.pages[j]
    decreases |acts|
  {
    if acts != [] {
      var t := Step(s, acts[0]);
      assert t.pages[j] == s.pages[j];
      UnvisitedPageKept(t, acts[1..], j);
    }
  }

  // ---------------------------------------------------------------------------
  // k × next followed by k × prev from the initial state restores it
  // ---------------------------------------------------------------------------

  /** The step `next` leaves a page at: its maximum if `next` can reveal steps
      of it, 0 otherwise. */
  function Done(e: PageEntry): nat
  {
    if e.page.Page? && e.maxStep > 1 then e.maxStep else 0
  }

  function SumCost(pages: seq<PageEntry>): (r: nat)
    ensures r >= |pages|
    decreases |pages|
  {
    if pages == [] then 0 else SumCost(pages[..|pages| - 1]) + Done(pages[|pages| - 1]) + 1
  }

  /** A state that only `next` has led to from an initial one: earlier pages
      finished, later pages untouched. */
  ghost predicate Forward(s: Nav)
  {
    && s.idx < |s.pages|
    && (forall j :: 0 <= j < s.idx ==> s.pages[j].step == Done(s.pages[j]))
    && (forall j :: s.idx < j < |s.pages| ==> s.pages[j].step == 0)
    && s.pages[s.idx].step <= Done(s.pages[s.idx])
  }

  /** How many effective `next` calls lead from the initial state to `s`. */
  ghost function Rank(s: Nav): nat
    requires s.idx < |s.pages|
  {
    SumCost(s.pages[..s.idx]) + s.pages[s.idx].step
  }

  lemma SumCostStep(pages: seq<PageEntry>, i: nat)
    requires i < |pages|
    ensures SumCost(pages[..i + 1]) == SumCost(pages[..i]) + Done(pages[i]) + 1
  {
    assert pages[..i + 1][..i] == pages[..i];
  }

  lemma ForwardNext(s: Nav)
    requires Forward(s)
    ensures Forward(Next(s)) && Rank(Next(s)) <= Rank(s) + 1
  {
    var e := s.pages[s.idx];
    if Reveals(e) {
      assert Next(s).pages[..s.idx] == s.pages[..s.idx];
    } else if s.idx < |s.pages| - 1 {
      SumCostStep(s.pages, s.idx);
    }
  }

  lemma ForwardPrev(s: Nav)
    requires Forward(s)
    ensures Forward(Prev(s)) && Rank(Prev(s)) == if Rank(s) > 0 then Rank(s) - 1 else 0
  {
    var e := s.pages[s.idx];
    if e.step > 0 {
      assert Prev(s).pages[..s.idx] == s.pages[..s.idx];
    } else if s.idx > 0 {
      SumCostStep(s.pages, s.idx - 1);
    }
  }

  lemma {:induction false} ForwardNexts(s: Nav, k: nat)
    requires Forward(s)
    ensures Forward(Run(s, Repeat(NextAction, k)))
    ensures Rank(Run(s, Repeat(NextAction, k))) <= Rank(s) + k
    ensures SameDocument(s, Run(s, Repeat(NextAction, k)))
    decreases k
  {
    if k > 0 {
      assert Repeat(NextAction, k)[1..] == Repeat(NextAction, k - 1);
      ForwardNext(s);
      ForwardNexts(Next(s), k - 1);
    }
  }

  lemma {:induction false} ForwardPrevs(s: Nav, k: nat)
    requires Forward(s) && Rank(s) <= k
    ensures Forward(Run(s, Repeat(PrevAction, k)))
    ensures Rank(Run(s, Repeat(PrevAction, k))) == 0
    ensures SameDocument(s, Run(s, Repeat(PrevAction, k)))
    decreases k
  {
    if k > 0 {
      assert Repeat(PrevAction, k)[1..] == Repeat(PrevAction, k - 1);
      ForwardPrev(s);
      ForwardPrevs(Prev(s), k - 1);
    }
  }

  lemma RankZeroIsInitial(s: Nav, t: Nav)
    requires Forward(s) && Rank(s) == 0
    requires Initial(t) && SameDocument(t, s)
    ensures s == t
  {
    assert s.idx == 0;
    forall j | 0 <= j < |s.pages| ensures s.pages[j] == t.pages[j] {
    }
  }

  /** Calling `prev` as many times as `next` was called from the initial
      state gives the initial state back, every page's step included. */
  lemma NextsThenPrevsRestore(s: Nav, k: nat)
    requires Initial(s)
    ensures Run(Run(s, Repeat(NextAction, k)), Repeat(PrevAction, k)) == s
  {
    assert s.pages[..0] == [];
    assert Forward(s) && Rank(s) == 0;
    ForwardNexts(s, k);
    var mid := Run(s, Repeat(NextAction, k));
    ForwardPrevs(mid, k);
    RankZeroIsInitial(Run(mid, Repeat(PrevAction, k)), s);
  }
}
