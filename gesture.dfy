// The gesture interpreter of the air canvas: what one detected hand
// contributes to a tick.  The landmark detector itself is not modelled; a
// hand arrives as the pixel position of the index fingertip and the four
// landmark heights the drawing gesture compares.

module Gesture {

  /** One detected hand.  `x`, `y` are the index fingertip in frame pixels
      (already scaled and truncated); the four heights are the normalised y
      coordinates of the index tip, index PIP joint, middle tip and middle
      PIP joint, where a smaller y is higher in the image. */
  datatype Hand = Hand(
    x: int,
    y: int,
    indexTipY: real,
    indexPipY: real,
    middleTipY: real,
    middlePipY: real)

  /** A finger counts as extended when its tip is above its PIP joint. */
  predicate Extended(tipY: real, pipY: real) {
    tipY < pipY
  }

  /** The drawing gesture: index finger extended, middle finger not. */
  predicate IsDrawing(hand: Hand) {
    Extended(hand.indexTipY, hand.indexPipY) && !Extended(hand.middleTipY, hand.middlePipY)
  }

  /** The gesture is decided by the four landmark heights alone: moving the
      pointer does not change it. */
  lemma GestureIgnoresPointer(hand: Hand, x: int, y: int)
    ensures IsDrawing(hand.(x := x, y := y)) == IsDrawing(hand)
  {
  }

  /** The gesture is monotone in the finger poses: raising the index tip
      or lowering its joint, and lowering the middle tip or raising its
      joint, keeps a drawing hand drawing. */
  lemma GestureMonotone(hand: Hand, other: Hand)
    requires IsDrawing(hand)
    requires other.indexTipY <= hand.indexTipY && other.indexPipY >= hand.indexPipY
    requires other.middleTipY >= hand.middleTipY && other.middlePipY <= hand.middlePipY
    ensures IsDrawing(other)
  {
  }
}
