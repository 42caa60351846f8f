// The `AirCanvas` object: the fields its methods update in place, the
// per-frame hand processing with its loops over the detected hands and over
// the palette, and the overlay renderer.  Each method is proved against the
// functions of `Painter` and `Ui`.

module App {
  import opened Ui
  import opened Gesture
  import opened Painter

  class AirCanvas {
    var brushColor: Bgr
    var eraser: bool
    var lastX: int
    var lastY: int
    var selectedColorIndex: int
    var canvas: seq<Stroke>

    /** The object's fields as a state value. */
    function Snapshot(): PenState
      reads this
    {
      PenState(lastX, lastY, selectedColorIndex, brushColor, eraser, canvas)
    }

    ghost predicate Valid()
      reads this
    {
      Painter.Valid(Snapshot()) && AllWellInked(canvas)
    }

    constructor ()
      ensures Valid()
      ensures Snapshot() == Initial()
    {
      brushColor := Bgr(255, 0, 0);
      eraser := false;
      lastX, lastY := ABSENT, ABSENT;
      selectedColorIndex := 0;
      canvas := [];
    }

    /** Process one detected hand on a `width` by `height` frame. */
    method HandleHand(hand: Hand, width: int, height: int)
      modifies this
      ensures Snapshot() == Step(old(Snapshot()), hand, width, height)
      ensures old(Valid()) ==> Valid()
    {
      ghost var s0 := Snapshot();
      var x, y := hand.x, hand.y;
      if IsDrawing(hand) {
        if lastX != ABSENT && lastY != ABSENT {
          var color := if eraser then BLACK else brushColor;
          var size := if eraser then ERASER_SIZE else BRUSH_SIZE;
          canvas := canvas + [Stroke(Point(lastX, lastY), Point(x, y), color, size)];
        }
        lastX, lastY := x, y;
      } else {
        lastX, lastY := ABSENT, ABSENT;
      }
      ghost var tracked := Snapshot();
      assert tracked == TrackPointer(s0, hand);

      for i := 0 to |PALETTE|
        invariant Snapshot() == ApplySwatch(tracked, SwatchHit(x, y, i))
      {
        var r := SwatchRect(i);
        if r.x1 < x < r.x2 && r.y1 < y < r.y2 {
          selectedColorIndex := i;
          brushColor := PALETTE[i];
          eraser := false;
        }
      }

      if 10 < x < 130 && height - 60 < y < height - 10 {
        canvas := [];
      }

      if width - 130 < x < width - 10 && height - 60 < y < height - 10 {
        eraser := true;
      }
    }

    /** Process every hand the detector returned for one frame, in order. */
    method ProcessHand(hands: seq<Hand>, width: int, height: int)
      modifies this
      ensures Snapshot() == Tick(old(Snapshot()), hands, width, height)
      ensures old(Valid()) ==> Valid()
    {
      for k := 0 to |hands|
        invariant Snapshot() == Tick(old(Snapshot()), hands[..k], width, height)
        invariant old(Valid()) ==> Valid()
      {
        assert hands[..k + 1][..k] == hands[..k];
        HandleHand(hands[k], width, height);
      }
      assert hands[..|hands|] == hands;
    }

    /** The drawing operations of the overlay, in the order they are issued. */
    method DrawUi(width: int, height: int) returns (ops: seq<DrawOp>)
      ensures ops == Overlay(width, height, selectedColorIndex, eraser)
      ensures 0 <= selectedColorIndex < |PALETTE| ==>
                (OutlineRect(SwatchRect(selectedColorIndex), BLACK, 3) in ops <==> !eraser)
      ensures forall i :: 0 <= i < |PALETTE| ==> FillRect(SwatchRect(i), PALETTE[i]) in ops
    {
      ops := [];
      for i := 0 to |PALETTE|
        invariant ops == PaletteOps(i, selectedColorIndex, eraser)
      {
        var rect := SwatchRect(i);
        ops := ops + [FillRect(rect, PALETTE[i])];
        if i == selectedColorIndex && !eraser {
          ops := ops + [OutlineRect(rect, BLACK, 3)];
        }
      }
      ops := ops + [FillRect(ResetRect(height), WHITE), Label("Reset", 30, height - 25)];
      ops := ops + [FillRect(EraserRect(width, height), BUTTON_GRAY), Label("Eraser", width - 120, height - 25)];
      if 0 <= selectedColorIndex < |PALETTE| {
        OverlayShowsState(width, height, selectedColorIndex, eraser);
      }
    }
  }
}
