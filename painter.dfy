// The per-hand state machine of the air canvas, as values.  A `PenState`
// holds everything `AirCanvas` keeps between hands: the previous pointer
// position, the selected palette index, the brush colour, the eraser flag and
// the canvas.  The canvas is kept as the sequence of line strokes stamped on
// it, oldest first; resetting it empties the sequence.
//
// One hand is processed in four stages, in this order: track the pointer
// (and maybe stamp a stroke), select a palette colour, check the reset
// button, check the eraser button.  A tick folds this step over the hands the
// detector returned, in order.

module Painter {
  import opened Ui
  import opened Gesture

  datatype Point = Point(x: int, y: int)

  /** A line segment stamped on the canvas with a colour and a thickness. */
  datatype Stroke = Stroke(from: Point, to: Point, color: Bgr, width: int)

  datatype PenState = PenState(
    lastX: int,
    lastY: int,
    selected: int,
    brushColor: Bgr,
    eraser: bool,
    canvas: seq<Stroke>)

  /** The coordinate value that marks the previous position as absent. */
  const ABSENT := -1
  const BRUSH_SIZE := 10
  const ERASER_SIZE := 30

  /** The selected index is a palette index and the brush has its colour. */
  predicate Valid(s: PenState) {
    0 <= s.selected < |PALETTE| && s.brushColor == PALETTE[s.selected]
  }

  /** A previous position is recorded.  Either coordinate equal to the
      sentinel makes the position count as absent. */
  predicate HasLast(s: PenState) {
    s.lastX != ABSENT && s.lastY != ABSENT
  }

  /** The state of a freshly constructed canvas application. */
  function Initial(): (s: PenState)
    ensures Valid(s) && s.selected == 0
    ensures !HasLast(s) && !s.eraser && s.canvas == []
  {
    PenState(ABSENT, ABSENT, 0, Bgr(255, 0, 0), false, [])
  }

  /** The colour a stroke is stamped with: black when erasing. */
  function InkColor(eraser: bool, brushColor: Bgr): Bgr {
    if eraser then BLACK else brushColor
  }

  /** The thickness a stroke is stamped with: wider when erasing. */
  function InkWidth(eraser: bool): int {
    if eraser then ERASER_SIZE else BRUSH_SIZE
  }

  /** A stroke either erases (black, eraser width) or paints in a palette
      colour at brush width. */
  predicate WellInked(st: Stroke) {
    (st.color == BLACK && st.width == ERASER_SIZE)
    || (st.color in PALETTE && st.width == BRUSH_SIZE)
  }

  predicate AllWellInked(canvas: seq<Stroke>) {
    forall k :: 0 <= k < |canvas| ==> WellInked(canvas[k])
  }

  /** The stroke from the previous position to the hand, in the current ink. */
  function StrokeTo(s: PenState, hand: Hand): Stroke {
    Stroke(Point(s.lastX, s.lastY), Point(hand.x, hand.y), InkColor(s.eraser, s.brushColor), InkWidth(s.eraser))
  }

  /** Stage 1: follow the pointer.  In the drawing gesture, stamp a stroke
      from the previous position if there is one and remember the pointer;
      otherwise forget the previous position. */
  function TrackPointer(s: PenState, hand: Hand): (r: PenState)
    ensures r.selected == s.selected && r.brushColor == s.brushColor && r.eraser == s.eraser
    ensures IsDrawing(hand) ==> r.lastX == hand.x && r.lastY == hand.y
    ensures !IsDrawing(hand) ==> r.lastX == ABSENT && r.lastY == ABSENT
    ensures s.canvas <= r.canvas
    ensures |r.canvas| == |s.canvas| + (if IsDrawing(hand) && HasLast(s) then 1 else 0)
    ensures IsDrawing(hand) && HasLast(s) ==>
              r.canvas[|s.canvas|].from == Point(s.lastX, s.lastY)
              && r.canvas[|s.canvas|].to == Point(hand.x, hand.y)
    ensures IsDrawing(hand) && HasLast(s) && s.eraser ==>
              r.canvas[|s.canvas|].color == BLACK && r.canvas[|s.canvas|].width == ERASER_SIZE
    ensures IsDrawing(hand) && HasLast(s) && !s.eraser ==>
              r.canvas[|s.canvas|].color == s.brushColor && r.canvas[|s.canvas|].width == BRUSH_SIZE
    ensures Valid(s) && AllWellInked(s.canvas) ==> AllWellInked(r.canvas)
  {
    if IsDrawing(hand) then
      var canvas := if HasLast(s) then s.canvas + [StrokeTo(s, hand)] else s.canvas;
      s.(lastX := hand.x, lastY := hand.y, canvas := canvas)
    else
      s.(lastX := ABSENT, lastY := ABSENT)
  }

  /** Select swatch `hit`, if there is one: its colour becomes the brush
      colour and the eraser is switched off. */
  function ApplySwatch(s: PenState, hit: Option<nat>): PenState
    requires hit.Some? ==> hit.value < |PALETTE|
  {
    match hit
    case None => s
    case Some(i) => s.(selected := i, brushColor := PALETTE[i], eraser := false)
  }

  /** Stage 2: the palette. */
  function SelectColor(s: PenState, x: int, y: int): (r: PenState)
    ensures r.lastX == s.lastX && r.lastY == s.lastY && r.canvas == s.canvas
    ensures forall i :: 0 <= i < |PALETTE| && StrictlyInside(SwatchRect(i), x, y) ==>
              r.selected == i && r.brushColor == PALETTE[i] && !r.eraser
    ensures !OnPalette(x, y) ==> r == s
    ensures Valid(s) ==> Valid(r)
  {
    PaletteHitExactly(x, y);
    ApplySwatch(s, SwatchHit(x, y, |PALETTE|))
  }

  /** Stage 3: the reset button replaces the canvas with an empty one. */
  function CheckReset(s: PenState, x: int, y: int, height: int): PenState {
    if StrictlyInside(ResetRect(height), x, y) then s.(canvas := []) else s
  }

  /** Stage 4: the eraser button switches the eraser on. */
  function CheckEraser(s: PenState, x: int, y: int, width: int, height: int): PenState {
    if StrictlyInside(EraserRect(width, height), x, y) then s.(eraser := true) else s
  }

  /** Processing one hand on a `width` by `height` frame.  The buttons are
      hit-tested whatever the gesture; a reset empties the canvas even of a
      stroke stamped earlier in the same step; an eraser hit overrides a
      palette hit on the same point. */
  function Step(s: PenState, hand: Hand, width: int, height: int): (r: PenState)
    ensures Valid(s) ==> Valid(r)
    ensures Valid(s) && AllWellInked(s.canvas) ==> AllWellInked(r.canvas)
    ensures IsDrawing(hand) ==> r.lastX == hand.x && r.lastY == hand.y
    ensures !IsDrawing(hand) ==> r.lastX == ABSENT && r.lastY == ABSENT
    ensures StrictlyInside(ResetRect(height), hand.x, hand.y) ==> r.canvas == []
    ensures !StrictlyInside(ResetRect(height), hand.x, hand.y) ==>
              s.canvas <= r.canvas
              && |r.canvas| == |s.canvas| + (if IsDrawing(hand) && HasLast(s) then 1 else 0)
    ensures !StrictlyInside(ResetRect(height), hand.x, hand.y) && IsDrawing(hand) && HasLast(s) ==>
              r.canvas[|s.canvas|] == StrokeTo(s, hand)
    ensures forall i :: 0 <= i < |PALETTE| && StrictlyInside(SwatchRect(i), hand.x, hand.y) ==>
              r.selected == i && r.brushColor == PALETTE[i]
    ensures !OnPalette(hand.x, hand.y) ==> r.selected == s.selected && r.brushColor == s.brushColor
    ensures StrictlyInside(EraserRect(width, height), hand.x, hand.y) ==> r.eraser
    ensures !StrictlyInside(EraserRect(width, height), hand.x, hand.y) && OnPalette(hand.x, hand.y) ==> !r.eraser
    ensures !StrictlyInside(EraserRect(width, height), hand.x, hand.y) && !OnPalette(hand.x, hand.y) ==>
              r.eraser == s.eraser
  {
    var tracked := TrackPointer(s, hand);
    var selected := SelectColor(tracked, hand.x, hand.y);
    var reset := CheckReset(selected, hand.x, hand.y, height);
    CheckEraser(reset, hand.x, hand.y, width, height)
  }

  /** One tick: every detected hand in turn, the last one processed last. */
  function Tick(s: PenState, hands: seq<Hand>, width: int, height: int): (r: PenState)
    ensures Valid(s) ==> Valid(r)
    ensures Valid(s) && AllWellInked(s.canvas) ==> AllWellInked(r.canvas)
    decreases |hands|
  {
    if hands == [] then s
    else Step(Tick(s, hands[..|hands| - 1], width, height), hands[|hands| - 1], width, height)
  }

  /** Ticks compose: the hands of one tick can be split anywhere. */
  lemma {:induction false} TickSplit(s: PenState, a: seq<Hand>, b: seq<Hand>, width: int, height: int)
    ensures Tick(s, a + b, width, height) == Tick(Tick(s, a, width, height), b, width, height)
    decreases |b|
  {
    if b == [] {
      assert a + b == a;
    } else {
      var b' := b[..|b| - 1];
      assert (a + b)[..|a + b| - 1] == a + b';
      TickSplit(s, a, b', width, height);
    }
  }

  /** A tick is the left fold of `Step` over the hands: the first hand is
      processed first, on the state before the tick. */
  lemma TickFirstHandFirst(s: PenState, hand: Hand, rest: seq<Hand>, width: int, height: int)
    ensures Tick(s, [hand] + rest, width, height) == Tick(Step(s, hand, width, height), rest, width, height)
  {
    TickSplit(s, [hand], rest, width, height);
    assert [hand][..0] == [];
  }

  /** On a conflict the last hand processed wins: its gesture decides the
      previous position, its reset empties the canvas, its eraser hit leaves
      the eraser on. */
  lemma LastHandWins(s: PenState, hands: seq<Hand>, width: int, height: int)
    requires |hands| > 0
    ensures var last, r := hands[|hands| - 1], Tick(s, hands, width, height);
      && (IsDrawing(last) ==> r.lastX == last.x && r.lastY == last.y)
      && (!IsDrawing(last) ==> !HasLast(r))
      && (StrictlyInside(ResetRect(height), last.x, last.y) ==> r.canvas == [])
      && (StrictlyInside(EraserRect(width, height), last.x, last.y) ==> r.eraser)
      && (forall i :: 0 <= i < |PALETTE| && StrictlyInside(SwatchRect(i), last.x, last.y) ==>
            r.selected == i && r.brushColor == PALETTE[i]
            && (!StrictlyInside(EraserRect(width, height), last.x, last.y) ==> !r.eraser))
  {
  }

  /** A frame in which no hand is detected changes nothing, not even the
      previous position: a drawing hand that reappears is joined by a stroke
      to where it was before it left. */
  lemma EmptyFrameKeepsPosition(s: PenState, hand: Hand, width: int, height: int)
    requires HasLast(s) && IsDrawing(hand) && !StrictlyInside(ResetRect(height), hand.x, hand.y)
    ensures Tick(s, [], width, height) == s
    ensures var r := Tick(Tick(s, [], width, height), [hand], width, height);
      |r.canvas| == |s.canvas| + 1
      && r.canvas[|s.canvas|].from == Point(s.lastX, s.lastY)
      && r.canvas[|s.canvas|].to == Point(hand.x, hand.y)
  {
    assert [hand][..0] == [];
  }

  /** All hands of a frame share one previous position: when two drawing
      hands are detected, the second is joined to the first by a stroke. */
  lemma HandsShareLastPosition(s: PenState, h1: Hand, h2: Hand, width: int, height: int)
    requires IsDrawing(h1) && h1.x != ABSENT && h1.y != ABSENT
    requires IsDrawing(h2) && !StrictlyInside(ResetRect(height), h2.x, h2.y)
    ensures var mid := Tick(s, [h1], width, height);
      var r := Tick(s, [h1, h2], width, height);
      |r.canvas| == |mid.canvas| + 1
      && r.canvas[|mid.canvas|].from == Point(h1.x, h1.y)
      && r.canvas[|mid.canvas|].to == Point(h2.x, h2.y)
  {
    assert [h1, h2][..1] == [h1];
    assert [h1][..0] == [];
  }

  /** Without a reset, a tick only adds strokes, at most one per hand. */
  lemma {:induction false} CanvasGrowsWithoutReset(s: PenState, hands: seq<Hand>, width: int, height: int)
    requires forall k :: 0 <= k < |hands| ==> !StrictlyInside(ResetRect(height), hands[k].x, hands[k].y)
    ensures var r := Tick(s, hands, width, height);
      s.canvas <= r.canvas && |r.canvas| <= |s.canvas| + |hands|
    decreases |hands|
  {
    if hands != [] {
      CanvasGrowsWithoutReset(s, hands[..|hands| - 1], width, height);
    }
  }

  /** After a reset by hand `k`, only the hands after it can have stamped
      strokes, one each at most. */
  lemma {:induction false} ResetLeavesOnlyLaterStrokes(s: PenState, hands: seq<Hand>, k: nat, width: int, height: int)
    requires k < |hands| && StrictlyInside(ResetRect(height), hands[k].x, hands[k].y)
    ensures |Tick(s, hands, width, height).canvas| <= |hands| - 1 - k
    decreases |hands|
  {
    if k < |hands| - 1 {
      ResetLeavesOnlyLaterStrokes(s, hands[..|hands| - 1], k, width, height);
    }
  }

  /** A hand out of the drawing gesture breaks the line: the next hand
      cannot stamp a stroke joined to a position from before the gap. */
  lemma GapBreaksStroke(s: PenState, h1: Hand, h2: Hand, width: int, height: int)
    requires !IsDrawing(h1)
    ensures var mid := Step(s, h1, width, height);
      var r := Step(mid, h2, width, height);
      r.canvas == mid.canvas || r.canvas == []
  {
  }

  /** The sentinel is an ordinary coordinate value: a drawing hand whose
      pointer has x or y equal to -1 records a position that the next hand
      treats as absent, so no stroke joins the two. */
  lemma SentinelCoordinateBreaksStroke(s: PenState, h1: Hand, h2: Hand, width: int, height: int)
    requires IsDrawing(h1) && (h1.x == ABSENT || h1.y == ABSENT)
    ensures var mid := Step(s, h1, width, height);
      !HasLast(mid) && (Step(mid, h2, width, height).canvas == mid.canvas || Step(mid, h2, width, height).canvas == [])
  {
  }

  /** After an eraser hit, the next stroke erases (black, eraser width)
      while the palette selection is kept, until a swatch is chosen again. */
  lemma EraserThenDraw(s: PenState, h1: Hand, h2: Hand, width: int, height: int)
    requires Valid(s)
    requires StrictlyInside(EraserRect(width, height), h1.x, h1.y) && !OnPalette(h1.x, h1.y)
    requires IsDrawing(h1) && h1.x != ABSENT && h1.y != ABSENT
    requires IsDrawing(h2) && !OnPalette(h2.x, h2.y) && !StrictlyInside(ResetRect(height), h2.x, h2.y)
    ensures var mid := Step(s, h1, width, height);
      var r := Step(mid, h2, width, height);
      && mid.selected == s.selected && mid.brushColor == s.brushColor
      && |r.canvas| == |mid.canvas| + 1
      && r.canvas[|mid.canvas|] == Stroke(Point(h1.x, h1.y), Point(h2.x, h2.y), BLACK, ERASER_SIZE)
      && r.eraser && r.selected == s.selected
  {
  }

  /** Choosing swatch `i` switches the eraser off, and the next stroke is
      painted in that colour at brush width. */
  lemma SelectThenDraw(s: PenState, i: nat, h1: Hand, h2: Hand, width: int, height: int)
    requires i < |PALETTE| && StrictlyInside(SwatchRect(i), h1.x, h1.y)
    requires !StrictlyInside(EraserRect(width, height), h1.x, h1.y)
    requires IsDrawing(h1) && h1.x != ABSENT && h1.y != ABSENT
    requires IsDrawing(h2) && !StrictlyInside(ResetRect(height), h2.x, h2.y)
    ensures var mid := Step(s, h1, width, height);
      var r := Step(mid, h2, width, height);
      && !mid.eraser && mid.selected == i && mid.brushColor == PALETTE[i]
      && |r.canvas| == |mid.canvas| + 1
      && r.canvas[|mid.canvas|] == Stroke(Point(h1.x, h1.y), Point(h2.x, h2.y), PALETTE[i], BRUSH_SIZE)
  {
  }
}
