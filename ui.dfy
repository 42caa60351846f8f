// The user interface of the air canvas: the palette, the two buttons, the
// rectangles they occupy (pure integer geometry in the frame width and
// height), hit-testing of the pointer against them, and the list of drawing
// operations the overlay renderer issues each tick.

module Ui {

  datatype Option<T> = None | Some(value: T)

  /** A colour in OpenCV's blue-green-red channel order. */
  datatype Bgr = Bgr(b: int, g: int, r: int)

  const BLACK := Bgr(0, 0, 0)
  const WHITE := Bgr(255, 255, 255)
  const BUTTON_GRAY := Bgr(200, 200, 200)

  /** The fixed palette, in swatch order: blue, green, red, cyan, magenta,
      yellow, white. */
  const PALETTE: seq<Bgr> := [
    Bgr(255, 0, 0),
    Bgr(0, 255, 0),
    Bgr(0, 0, 255),
    Bgr(255, 255, 0),
    Bgr(255, 0, 255),
    Bgr(0, 255, 255),
    Bgr(255, 255, 255)
  ]

  /** An axis-aligned rectangle given by two opposite corners. */
  datatype Rect = Rect(x1: int, y1: int, x2: int, y2: int)

  /** Hit-testing is strict on all four sides: the border itself is outside. */
  predicate StrictlyInside(r: Rect, x: int, y: int) {
    r.x1 < x < r.x2 && r.y1 < y < r.y2
  }

  /** Swatch `i`: 80 pixels square less the top margin, one every 90 pixels. */
  function SwatchRect(i: int): Rect {
    var x1 := 10 + i * 90;
    Rect(x1, 10, x1 + 80, 80)
  }

  /** The reset button, anchored to the bottom-left corner. */
  function ResetRect(height: int): Rect {
    Rect(10, height - 60, 130, height - 10)
  }

  /** The eraser button, anchored to the bottom-right corner. */
  function EraserRect(width: int, height: int): Rect {
    Rect(width - 130, height - 60, width - 10, height - 10)
  }

  /** No point lies strictly inside two different swatches. */
  lemma SwatchesDisjoint(i: int, j: int, x: int, y: int)
    requires i != j
    ensures !(StrictlyInside(SwatchRect(i), x, y) && StrictlyInside(SwatchRect(j), x, y))
  {
  }

  /** Swatches are laid out left to right with a gap between neighbours. */
  lemma SwatchesLeftToRight(i: int, j: int)
    requires i < j
    ensures SwatchRect(i).x2 < SwatchRect(j).x1
  {
  }

  /** In a frame at least 640 wide and 80 high every swatch lies inside it. */
  lemma SwatchesInsideFrame(i: int, width: int, height: int)
    requires 0 <= i < |PALETTE|
    requires width >= |PALETTE| * 90 + 10 && height >= 80
    ensures 0 <= SwatchRect(i).x1 && SwatchRect(i).x2 <= width
    ensures 0 <= SwatchRect(i).y1 && SwatchRect(i).y2 <= height
  {
  }

  /** The swatch among the first `n` that the pointer is on, if any.  When
      several could match, the highest index wins, as it does when the
      palette loop overwrites the selection in index order. */
  function SwatchHit(x: int, y: int, n: nat): (r: Option<nat>)
    ensures r.Some? ==> r.value < n && StrictlyInside(SwatchRect(r.value), x, y)
    ensures forall k :: 0 <= k < n && StrictlyInside(SwatchRect(k), x, y) ==> r == Some(k)
  {
    if n == 0 then None
    else if StrictlyInside(SwatchRect(n - 1), x, y) then
      (forall k | 0 <= k < n - 1 ensures !StrictlyInside(SwatchRect(k), x, y) {
         SwatchesDisjoint(k, n - 1, x, y);
       }
       Some(n - 1))
    else SwatchHit(x, y, n - 1)
  }

  /** The pointer is on some palette swatch. */
  predicate OnPalette(x: int, y: int) {
    exists i :: 0 <= i < |PALETTE| && StrictlyInside(SwatchRect(i), x, y)
  }

  /** The palette hit-test finds a swatch exactly when the pointer is on one. */
  lemma PaletteHitExactly(x: int, y: int)
    ensures SwatchHit(x, y, |PALETTE|).Some? <==> OnPalette(x, y)
  {
  }

  /** One drawing operation the overlay issues onto the outgoing frame. */
  datatype DrawOp =
    | FillRect(rect: Rect, color: Bgr)
    | OutlineRect(rect: Rect, color: Bgr, thickness: int)
    | Label(text: string, x: int, y: int)

  /** The operations for swatch `i`: the filled swatch, then its highlight
      border if it is the selected one and the eraser is off. */
  function SwatchOps(i: nat, selected: int, eraser: bool): seq<DrawOp>
    requires i < |PALETTE|
  {
    [FillRect(SwatchRect(i), PALETTE[i])]
      + (if i == selected && !eraser then [OutlineRect(SwatchRect(i), BLACK, 3)] else [])
  }

  /** The operations for the first `n` swatches, in index order. */
  function PaletteOps(n: nat, selected: int, eraser: bool): (ops: seq<DrawOp>)
    requires n <= |PALETTE|
    ensures forall i :: 0 <= i < n ==> FillRect(SwatchRect(i), PALETTE[i]) in ops
    ensures forall op :: op in ops && op.OutlineRect? ==>
              !eraser && 0 <= selected < n && op == OutlineRect(SwatchRect(selected), BLACK, 3)
    ensures !eraser && 0 <= selected < n ==> OutlineRect(SwatchRect(selected), BLACK, 3) in ops
    ensures forall op :: op in ops ==> !op.Label?
  {
    if n == 0 then [] else PaletteOps(n - 1, selected, eraser) + SwatchOps(n - 1, selected, eraser)
  }

  /** The palette operations are nothing but the swatch fills, plus the one
      outline, which comes right after the fill of the swatch it borders. */
  lemma {:induction false} PaletteOpsExactly(n: nat, selected: int, eraser: bool)
    requires n <= |PALETTE|
    ensures var ops := PaletteOps(n, selected, eraser);
      && (forall op :: op in ops && op.FillRect? ==>
            exists i :: 0 <= i < n && op == FillRect(SwatchRect(i), PALETTE[i]))
      && (forall j :: 0 <= j < |ops| && ops[j].OutlineRect? ==>
            0 < j && ops[j - 1].FillRect? && ops[j - 1].rect == ops[j].rect)
      && |ops| == n + (if !eraser && 0 <= selected < n then 1 else 0)
  {
    if n > 0 {
      PaletteOpsExactly(n - 1, selected, eraser);
      var prev := PaletteOps(n - 1, selected, eraser);
      var ops := PaletteOps(n, selected, eraser);
      assert ops == prev + SwatchOps(n - 1, selected, eraser);
      forall op | op in ops && op.FillRect?
        ensures exists i :: 0 <= i < n && op == FillRect(SwatchRect(i), PALETTE[i])
      {
        if op in prev {
        } else {
          assert op == FillRect(SwatchRect(n - 1), PALETTE[n - 1]);
        }
      }
      forall j | 0 <= j < |ops| && ops[j].OutlineRect?
        ensures 0 < j && ops[j - 1].FillRect? && ops[j - 1].rect == ops[j].rect
      {
        if j < |prev| {
          assert ops[j] == prev[j] && ops[j - 1] == prev[j - 1];
        } else {
          assert j == |prev| + 1;
        }
      }
    }
  }

  /** Everything the overlay draws on a `width` by `height` frame. */
  function Overlay(width: int, height: int, selected: int, eraser: bool): seq<DrawOp> {
    PaletteOps(|PALETTE|, selected, eraser)
      + [ FillRect(ResetRect(height), WHITE),
          Label("Reset", 30, height - 25),
          FillRect(EraserRect(width, height), BUTTON_GRAY),
          Label("Eraser", width - 120, height - 25) ]
  }

  /** The overlay shows every swatch in its palette colour and both buttons
      over exactly the rectangles that the hit-tests use; it outlines the
      selected swatch, and no other, exactly when the eraser is off. */
  lemma OverlayShowsState(width: int, height: int, selected: int, eraser: bool)
    requires 0 <= selected < |PALETTE|
    ensures forall i :: 0 <= i < |PALETTE| ==>
              FillRect(SwatchRect(i), PALETTE[i]) in Overlay(width, height, selected, eraser)
    ensures FillRect(ResetRect(height), WHITE) in Overlay(width, height, selected, eraser)
    ensures FillRect(EraserRect(width, height), BUTTON_GRAY) in Overlay(width, height, selected, eraser)
    ensures OutlineRect(SwatchRect(selected), BLACK, 3) in Overlay(width, height, selected, eraser) <==> !eraser
    ensures forall op :: op in Overlay(width, height, selected, eraser) && op.OutlineRect? ==>
              op.rect == SwatchRect(selected)
    ensures forall op :: op in Overlay(width, height, selected, eraser) && op.FillRect? ==>
              op == FillRect(ResetRect(height), WHITE)
              || op == FillRect(EraserRect(width, height), BUTTON_GRAY)
              || exists i :: 0 <= i < |PALETTE| && op == FillRect(SwatchRect(i), PALETTE[i])
  {
    var pal := PaletteOps(|PALETTE|, selected, eraser);
    var buttons := [ FillRect(ResetRect(height), WHITE),
                     Label("Reset", 30, height - 25),
                     FillRect(EraserRect(width, height), BUTTON_GRAY),
                     Label("Eraser", width - 120, height - 25) ];
    var ops := Overlay(width, height, selected, eraser);
    assert ops == pal + buttons;
    assert buttons[0] in ops && buttons[2] in ops;
    PaletteOpsExactly(|PALETTE|, selected, eraser);
    forall op | op in ops
      ensures op in pal || op in buttons
    {
    }
  }
}
