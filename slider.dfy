/**
  The before/after comparison slider. Every `.before-after` box on the page
  has an overlay (`.after`) whose width, and a handle (`.slider-handle`)
  whose left offset, follow the pointer while the box is being dragged.
  A drag starts on the box (pointerdown or touchstart) and ends anywhere on
  the window (pointerup or touchend).

  The pure part (clamping, and what each event does to one box's state or
  to the states of all boxes) is beside the two classes that hold that
  state: `Box` for one box and `Page` for all boxes the page found.
 */
module Slider {

  /** The handle never goes nearer than this to either edge. */
  const MinPct: real := 6.0
  const MaxPct: real := 94.0

  type Width = w: real | w > 0.0 witness 1.0

  /** The part of the box's bounding rectangle that is read on every event. */
  datatype Rect = Rect(left: real, width: Width)

  /** `Math.min` and `Math.max` on two numbers. */
  function Min(a: real, b: real): real { if a <= b then a else b }
  function Max(a: real, b: real): real { if a >= b then a else b }

  /** Where the pointer is across the box, in percent of its width. */
  function RawPct(x: real, rect: Rect): real {
    (x - rect.left) / rect.width * 100.0
  }

  /** The percentage `setPos` writes: the raw one clamped to [6, 94]. */
  function ClampPct(x: real, rect: Rect): (p: real)
    ensures MinPct <= p <= MaxPct
    ensures MinPct <= RawPct(x, rect) <= MaxPct ==> p == RawPct(x, rect)
  {
    Max(MinPct, Min(MaxPct, RawPct(x, rect)))
  }

  /** Moving the pointer to the right never moves the handle to the left. */
  lemma ClampMonotone(x1: real, x2: real, rect: Rect)
    requires x1 <= x2
    ensures ClampPct(x1, rect) <= ClampPct(x2, rect)
  {
    var w := rect.width;
    assert (x2 - rect.left) / w - (x1 - rect.left) / w == (x2 - x1) / w;
    assert (x2 - x1) / w >= 0.0;
  }

  /** The handle rests on its left bound exactly when the pointer is within
      the leftmost 6% of the box or beyond its left edge. */
  lemma ClampAtMin(x: real, rect: Rect)
    ensures ClampPct(x, rect) == MinPct <==> x <= rect.left + 0.06 * rect.width
  {
    var w := rect.width;
    assert RawPct(x, rect) <= MinPct <==> (x - rect.left) / w <= 0.06;
    assert (x - rect.left) / w <= 0.06 <==> x - rect.left <= 0.06 * w by {
      assert (x - rect.left) / w * w == x - rect.left;
    }
  }

  /** The handle rests on its right bound exactly when the pointer is within
      the rightmost 6% of the box or beyond its right edge. */
  lemma ClampAtMax(x: real, rect: Rect)
    ensures ClampPct(x, rect) == MaxPct <==> x >= rect.left + 0.94 * rect.width
  {
    var w := rect.width;
    assert RawPct(x, rect) >= MaxPct <==> (x - rect.left) / w >= 0.94;
    assert (x - rect.left) / w >= 0.94 <==> x - rect.left >= 0.94 * w by {
      assert (x - rect.left) / w * w == x - rect.left;
    }
  }

  /** A pointer outside the box puts the handle on the nearer bound. */
  lemma OutsideBoxClamps(x: real, rect: Rect)
    ensures x <= rect.left ==> ClampPct(x, rect) == MinPct
    ensures x >= rect.left + rect.width ==> ClampPct(x, rect) == MaxPct
  {
    ClampAtMin(x, rect);
    ClampAtMax(x, rect);
  }

  /** A box spanning x = 100..400: its two edges clamp, its middle is 50%,
      and a pointer left of it clamps to the left bound. */
  lemma ClampExamples()
    ensures ClampPct(100.0, Rect(100.0, 300.0)) == 6.0
    ensures ClampPct(400.0, Rect(100.0, 300.0)) == 94.0
    ensures ClampPct(250.0, Rect(100.0, 300.0)) == 50.0
    ensures ClampPct(50.0, Rect(100.0, 300.0)) == 6.0
  {
  }

  /** An inline style percentage; `Unset` until the script first writes it. */
  datatype Style = Unset | Percent(value: real)

  /** Which of its two children a box's markup provides. */
  datatype Parts = Parts(hasAfter: bool, hasHandle: bool) {
    predicate Complete() { hasAfter && hasHandle }
  }

  /** One box: its markup, its `dragging` flag, the overlay's width and the
      handle's left offset. */
  datatype BoxState = BoxState(parts: Parts, dragging: bool, overlayWidth: Style, handleLeft: Style)

  function Initial(parts: Parts): BoxState {
    BoxState(parts, false, Unset, Unset)
  }

  predicate InRange(st: Style) {
    st.Percent? ==> MinPct <= st.value <= MaxPct
  }

  /** What the script keeps true of every box: nothing it wrote lies
      outside [6, 94], and a box with both children shows the overlay edge
      and the handle at the same place. */
  predicate Aligned(s: BoxState) {
    InRange(s.overlayWidth) && InRange(s.handleLeft)
    && (s.parts.Complete() ==> s.overlayWidth == s.handleLeft)
  }

  /** `setPos(x)`: the overlay width, then the handle offset, set to the
      clamped percentage. Styling a missing child throws, which ends the
      handler: without an overlay nothing is written, without a handle only
      the overlay moves. */
  function Reposition(s: BoxState, x: real, rect: Rect): (t: BoxState)
    ensures t.parts == s.parts && t.dragging == s.dragging
    ensures s.parts.Complete() ==> t.overlayWidth == t.handleLeft == Percent(ClampPct(x, rect))
    ensures !s.parts.hasAfter ==> t == s
    ensures s.parts.hasAfter && !s.parts.hasHandle ==> t == s.(overlayWidth := Percent(ClampPct(x, rect)))
    ensures Aligned(s) ==> Aligned(t)
  {
    var p := ClampPct(x, rect);
    if !s.parts.hasAfter then s
    else if !s.parts.hasHandle then s.(overlayWidth := Percent(p))
    else s.(overlayWidth := Percent(p), handleLeft := Percent(p))
  }

  /** pointerdown / touchstart on the box: the drag starts and the handle
      jumps to the pointer at once. */
  function OnStart(s: BoxState, x: real, rect: Rect): (t: BoxState)
    ensures t.dragging && t.parts == s.parts
    ensures s.parts.Complete() ==> t.overlayWidth == t.handleLeft == Percent(ClampPct(x, rect))
    ensures !s.parts.hasAfter ==> t == s.(dragging := true)
    ensures s.parts.hasAfter && !s.parts.hasHandle ==>
              t == s.(dragging := true, overlayWidth := Percent(ClampPct(x, rect)))
  {
    Reposition(s.(dragging := true), x, rect)
  }

  /** pointermove / touchmove anywhere: the box follows only while dragged. */
  function OnMove(s: BoxState, x: real, rect: Rect): (t: BoxState)
    ensures t.parts == s.parts && t.dragging == s.dragging
    ensures !s.dragging ==> t == s
    ensures s.dragging && s.parts.Complete() ==>
              t.overlayWidth == t.handleLeft == Percent(ClampPct(x, rect))
    ensures s.dragging && !s.parts.hasAfter ==> t == s
    ensures s.dragging && s.parts.hasAfter && !s.parts.hasHandle ==>
              t == s.(overlayWidth := Percent(ClampPct(x, rect)))
  {
    if s.dragging then Reposition(s, x, rect) else s
  }

  /** pointerup / touchend anywhere: the drag stops where it is. */
  function OnEnd(s: BoxState): (t: BoxState)
    ensures !t.dragging
    ensures t.parts == s.parts && t.overlayWidth == s.overlayWidth && t.handleLeft == s.handleLeft
  {
    s.(dragging := false)
  }

  /** A start with no move shows the same thing as a start followed by a
      move to the same place. */
  lemma StartThenMoveSamePlace(s: BoxState, x: real, rect: Rect)
    ensures OnMove(OnStart(s, x, rect), x, rect) == OnStart(s, x, rect)
  {
  }

  /** A touch that is also reported as a pointer starts the drag twice, to
      the same effect as once. */
  lemma StartIdempotent(s: BoxState, x: real, rect: Rect)
    ensures OnStart(OnStart(s, x, rect), x, rect) == OnStart(s, x, rect)
  {
  }

  // ---------------------------------------------------------------------
  // All boxes of the page. Each box registered its own window listeners,
  // so a window-level move or release reaches every box.

  predicate NoneDragging(s: seq<BoxState>) {
    forall k :: 0 <= k < |s| ==> !s[k].dragging
  }

  /** No box other than box `i` is being dragged. */
  predicate OnlyDragging(s: seq<BoxState>, i: nat) {
    forall k :: 0 <= k < |s| && k != i ==> !s[k].dragging
  }

  predicate AllAligned(s: seq<BoxState>) {
    forall k :: 0 <= k < |s| ==> Aligned(s[k])
  }

  /** A press on box `i` reaches that box's own listener only. */
  function PageDown(s: seq<BoxState>, i: nat, x: real, rect: Rect): (t: seq<BoxState>)
    requires i < |s|
    ensures |t| == |s| && t[i] == OnStart(s[i], x, rect)
    ensures forall k :: 0 <= k < |s| && k != i ==> t[k] == s[k]
  {
    s[i := OnStart(s[i], x, rect)]
  }

  /** A window-level move reaches every box; `rects[k]` is box k's
      rectangle at that moment. */
  function PageMove(s: seq<BoxState>, x: real, rects: seq<Rect>): (t: seq<BoxState>)
    requires |rects| == |s|
    ensures |t| == |s|
    ensures forall k :: 0 <= k < |s| ==> t[k] == OnMove(s[k], x, rects[k])
  {
    seq(|s|, k requires 0 <= k < |s| => OnMove(s[k], x, rects[k]))
  }

  /** A window-level release stops every box's drag and moves nothing. */
  function PageUp(s: seq<BoxState>): (t: seq<BoxState>)
    ensures |t| == |s| && NoneDragging(t)
    ensures forall k :: 0 <= k < |s| ==> t[k] == OnEnd(s[k])
  {
    seq(|s|, k requires 0 <= k < |s| => OnEnd(s[k]))
  }

  datatype PageEvent = Down(box: nat, x: real, rect: Rect) | Move(x: real, rects: seq<Rect>) | Up

  /** The event makes sense on a page with `n` boxes. */
  predicate Fits(n: nat, e: PageEvent) {
    match e
    case Down(i, _, _) => i < n
    case Move(_, rects) => |rects| == n
    case Up => true
  }

  predicate AllFit(n: nat, evs: seq<PageEvent>) {
    forall k :: 0 <= k < |evs| ==> Fits(n, evs[k])
  }

  predicate AllMoves(evs: seq<PageEvent>) {
    forall k :: 0 <= k < |evs| ==> evs[k].Move?
  }

  function PageStep(s: seq<BoxState>, e: PageEvent): (t: seq<BoxState>)
    requires Fits(|s|, e)
    ensures |t| == |s|
  {
    match e
    case Down(i, x, rect) => PageDown(s, i, x, rect)
    case Move(x, rects) => PageMove(s, x, rects)
    case Up => PageUp(s)
  }

  /** The boxes after the events, dispatched one at a time in order. */
  function PageRun(s: seq<BoxState>, evs: seq<PageEvent>): (t: seq<BoxState>)
    requires AllFit(|s|, evs)
    ensures |t| == |s|
    decreases |evs|
  {
    if evs == [] then s else PageRun(PageStep(s, evs[0]), evs[1..])
  }

  /** Every box stays aligned and in range whatever the events. */
  lemma {:induction false} PageRunKeepsAligned(s: seq<BoxState>, evs: seq<PageEvent>)
    requires AllFit(|s|, evs) && AllAligned(s)
    ensures AllAligned(PageRun(s, evs))
    decreases |evs|
  {
    if evs != [] {
      var t := PageStep(s, evs[0]);
      assert AllAligned(t);
      PageRunKeepsAligned(t, evs[1..]);
    }
  }

  /** Once released, no move changes anything until the next press. */
  lemma {:induction false} MovesAfterUpAreNoOps(s: seq<BoxState>, evs: seq<PageEvent>)
    requires AllFit(|s|, evs) && AllMoves(evs)
    ensures PageRun(PageUp(s), evs) == PageUp(s)
    decreases |evs|
  {
    if evs != [] {
      var u := PageUp(s);
      var t := PageStep(u, evs[0]);
      assert t == u;
      MovesAfterUpAreNoOps(s, evs[1..]);
    }
  }

  /** While only box `i` is dragged, moves leave every other box alone and
      no other box starts dragging. */
  lemma {:induction false} MovesTouchOnlyDragged(s: seq<BoxState>, i: nat, evs: seq<PageEvent>)
    requires AllFit(|s|, evs) && AllMoves(evs) && OnlyDragging(s, i)
    ensures OnlyDragging(PageRun(s, evs), i)
    ensures forall k :: 0 <= k < |s| && k != i ==> PageRun(s, evs)[k] == s[k]
    decreases |evs|
  {
    if evs != [] {
      var t := PageStep(s, evs[0]);
      assert forall k :: 0 <= k < |s| && k != i ==> t[k] == s[k];
      MovesTouchOnlyDragged(t, i, evs[1..]);
    }
  }

  /** A drag on one box, starting when no box was dragged, never changes
      another box, however the pointer moves. */
  lemma DragIsIsolated(s: seq<BoxState>, i: nat, x: real, rect: Rect, evs: seq<PageEvent>)
    requires NoneDragging(s) && i < |s|
    requires AllFit(|s|, evs) && AllMoves(evs)
    ensures forall k :: 0 <= k < |s| && k != i ==> PageRun(PageDown(s, i, x, rect), evs)[k] == s[k]
  {
    MovesTouchOnlyDragged(PageDown(s, i, x, rect), i, evs);
  }

  /** Whatever the events, a box that is idle and that no press targets
      ends as it began: presses, moves and releases meant for other boxes
      never reach it. */
  lemma {:induction false} UntargetedBoxUnchanged(s: seq<BoxState>, k: nat, evs: seq<PageEvent>)
    requires AllFit(|s|, evs) && k < |s| && !s[k].dragging
    requires forall m :: 0 <= m < |evs| && evs[m].Down? ==> evs[m].box != k
    ensures PageRun(s, evs)[k] == s[k]
    decreases |evs|
  {
    if evs != [] {
      var t := PageStep(s, evs[0]);
      assert t[k] == s[k];
      assert forall m :: 0 <= m < |evs| - 1 ==> evs[1..][m] == evs[m + 1];
      UntargetedBoxUnchanged(t, k, evs[1..]);
    }
  }

  /** Isolation needs that release: two presses with none between leave two
      boxes dragged, and one move then repositions both. */
  lemma MissedReleaseCouplesBoxes(x: real, rect: Rect)
    ensures var both := Parts(true, true);
            var s := PageDown(PageDown([Initial(both), Initial(both)], 0, 0.0, rect), 1, 0.0, rect);
            var t := PageMove(s, x, [rect, rect]);
            t[0].overlayWidth == t[1].overlayWidth == Percent(ClampPct(x, rect))
  {
  }

  // ---------------------------------------------------------------------
  // The state the page holds.

  /** One `.before-after` box and the two inline styles the script writes. */
  class Box {
    const parts: Parts
    var dragging: bool
    var overlayWidth: Style
    var handleLeft: Style

    function State(): BoxState
      reads this
    {
      BoxState(parts, dragging, overlayWidth, handleLeft)
    }

    constructor (parts: Parts)
      ensures State() == Initial(parts)
    {
      this.parts := parts;
      dragging := false;
      overlayWidth, handleLeft := Unset, Unset;
    }

    /** `setPos(x)` with the rectangle read at this moment. */
    method SetPos(x: real, rect: Rect)
      modifies this
      ensures State() == Reposition(old(State()), x, rect)
    {
      var pct := (x - rect.left) / rect.width * 100.0;
      pct := Max(MinPct, Min(MaxPct, pct));
      if parts.hasAfter {
        overlayWidth := Percent(pct);
        if parts.hasHandle {
          handleLeft := Percent(pct);
        }
      }
    }

    /** The pointerdown and touchstart listeners of the box. */
    method Start(x: real, rect: Rect)
      modifies this
      ensures State() == OnStart(old(State()), x, rect)
    {
      dragging := true;
      SetPos(x, rect);
    }

    /** This box's pointermove and touchmove listeners on the window. */
    method Move(x: real, rect: Rect)
      modifies this
      ensures State() == OnMove(old(State()), x, rect)
    {
      if dragging {
        SetPos(x, rect);
      }
    }

    /** This box's pointerup and touchend listeners on the window. */
    method End()
      modifies this
      ensures State() == OnEnd(old(State()))
    {
      dragging := false;
    }
  }

  /** Every box the page found at load time. The browser runs the window
      listeners of the boxes one after another, in the order they were
      registered, which is the order of `boxes`. */
  class Page {
    const boxes: seq<Box>

    ghost predicate Valid() {
      forall i, j :: 0 <= i < j < |boxes| ==> boxes[i] != boxes[j]
    }

    ghost function States(): (r: seq<BoxState>)
      reads boxes
      ensures |r| == |boxes|
    {
      seq(|boxes|, k reads boxes requires 0 <= k < |boxes| => boxes[k].State())
    }

    /** Registers one box per element of `parts`, each idle and unstyled. */
    constructor (parts: seq<Parts>)
      ensures Valid() && |boxes| == |parts|
      ensures forall k :: 0 <= k < |parts| ==> fresh(boxes[k]) && boxes[k].State() == Initial(parts[k])
    {
      var bs: seq<Box> := [];
      var i := 0;
      while i < |parts|
        invariant 0 <= i <= |parts| && |bs| == i
        invariant forall a, b :: 0 <= a < b < i ==> bs[a] != bs[b]
        invariant forall k :: 0 <= k < i ==> fresh(bs[k]) && bs[k].State() == Initial(parts[k])
      {
        var b := new Box(parts[i]);
        bs := bs + [b];
        i := i + 1;
      }
      boxes := bs;
    }

    method Down(i: nat, x: real, rect: Rect)
      requires Valid() && i < |boxes|
      modifies boxes[i]
      ensures States() == PageDown(old(States()), i, x, rect)
    {
      boxes[i].Start(x, rect);
    }

    method Move(x: real, rects: seq<Rect>)
      requires Valid() && |rects| == |boxes|
      modifies set k | 0 <= k < |boxes| :: boxes[k]
      ensures States() == PageMove(old(States()), x, rects)
    {
      var i := 0;
      while i < |boxes|
        invariant 0 <= i <= |boxes|
        invariant forall k :: 0 <= k < i ==> boxes[k].State() == OnMove(old(boxes[k].State()), x, rects[k])
        invariant forall k :: i <= k < |boxes| ==> boxes[k].State() == old(boxes[k].State())
      {
        boxes[i].Move(x, rects[i]);
        i := i + 1;
      }
    }

    method Up()
      requires Valid()
      modifies set k | 0 <= k < |boxes| :: boxes[k]
      ensures States() == PageUp(old(States()))
    {
      var i := 0;
      while i < |boxes|
        invariant 0 <= i <= |boxes|
        invariant forall k :: 0 <= k < i ==> boxes[k].State() == OnEnd(old(boxes[k].State()))
        invariant forall k :: i <= k < |boxes| ==> boxes[k].State() == old(boxes[k].State())
      {
        boxes[i].End();
        i := i + 1;
      }
    }
  }
}
