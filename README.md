# Air Canvas — a Dafny model of the hand-driven drawing state machine

Air Canvas turns a webcam into a drawing surface. A hand detector reports the
index fingertip of each hand. When the index finger is extended and the middle
finger is curled, the fingertip draws on a persistent canvas. Touching one of
seven palette swatches at the top of the frame selects a colour. Touching the
bottom-left "Reset" button clears the canvas. Touching the bottom-right "Eraser"
button switches to erasing: from then on strokes are black and wider.

This project models the per-hand decision logic of `AirCanvas.process_hand`,
the state that `AirCanvas.__init__` sets up, and the rectangle geometry that
`draw_ui` shares with the hit-tests. It proves properties of them.

- `Gesture` (gesture.dfy): a detected hand, reduced to its integer pointer and
  the four landmark heights, and the drawing-gesture test.
- `Ui` (ui.dfy): the palette, the swatch and button rectangles as integer
  arithmetic in the frame width and height, and strict-interior hit-testing.
  It also holds the overlay renderer as a list of drawing operations.
- `Painter` (painter.dfy): the application state as a value (`PenState`).
  One hand is a `Step` made of four stages in source order: track the pointer,
  select a colour, check reset, check eraser. A frame is a `Tick`, the fold of
  `Step` over the detected hands. The canvas is the sequence of stamped strokes
  `(from, to, colour, width)`. A reset makes it the empty sequence.
- `App` (app.dfy): the `AirCanvas` class. Its fields are the ones the source
  updates in place. `HandleHand` keeps the source's loop over the palette.
  `ProcessHand` keeps the loop over the detected hands. `DrawUi` keeps the loop
  over the swatches. Each method is proved equal to the `Painter` or `Ui`
  function and preserves the object invariant.

The invariant kept by every step is `Painter.Valid` plus `AllWellInked`:
- the selected index is a palette index;
- the brush colour is the palette colour at that index;
- every stroke on the canvas either erases (black, width 30) or paints in a
  palette colour at width 10.

Two consequences of the source's shared state are proved rather than
smoothed over. A frame without hands leaves the previous position untouched,
so a hand that leaves the frame in the drawing pose and comes back is joined
to its old point. All hands of one frame share one previous position, so two
drawing hands are joined to each other by a stroke.

## Model

| member | source | states |
|---|---|---|
| `Gesture.GestureIgnoresPointer` | draw.py:54-58 | The drawing decision depends only on the four landmark heights: changing the pointer position does not change it |
| `Gesture.GestureMonotone` | draw.py:55-58 | A hand stays in the drawing pose when its index tip rises or index joint drops, and when its middle tip drops or middle joint rises |
| `Ui.SwatchesDisjoint` | draw.py:69-72 | No point lies strictly inside two different palette swatches, so at most one swatch is hit |
| `Ui.SwatchesLeftToRight` | draw.py:28-30 | Swatch rectangles are ordered left to right with a gap: swatch i ends before swatch j begins when i < j |
| `Ui.SwatchesInsideFrame` | draw.py:28-30 | When the frame is at least 7*90+10 wide and 80 high, every swatch lies inside it |
| `Ui.SwatchHit` | draw.py:69-72 | The palette hit-test returns a swatch the pointer is strictly inside, and returns swatch k whenever the pointer is inside swatch k (so the loop's result is the unique hit, or none) |
| `Ui.PaletteHitExactly` | draw.py:69-72 | The hit-test over all seven swatches finds a swatch if and only if the pointer is on the palette |
| `Ui.PaletteOps` | draw.py:28-33 | The palette drawing fills every swatch with its palette colour and draws an outline only around the selected swatch and only when the eraser is off; if the eraser is off and the index is valid, that outline is drawn |
| `Ui.PaletteOpsExactly` | draw.py:28-33 | The palette drawing holds only swatch fills and at most one outline. The outline comes right after the fill of the swatch it borders. There is one operation per swatch, plus the outline when drawn |
| `Ui.OverlayShowsState` | draw.py:26-41 | The overlay fills every swatch and both buttons over the same rectangles the hit-tests use. Every fill it issues is one of these. It outlines the selected swatch exactly when the eraser is off, and outlines no other rectangle |
| `Painter.Initial` | draw.py:7-20 | The initial state is valid (index 0, blue brush), has no previous position, eraser off and an empty canvas |
| `Painter.TrackPointer` | draw.py:58-66 | In the drawing gesture, the last position becomes the pointer, and one stroke from the old last position to the pointer is appended exactly when neither old coordinate is -1; it is black with width 30 when erasing, otherwise in the brush colour with width 10. Out of the gesture, the last position becomes (-1,-1) and no stroke is added. Brush and selection are untouched |
| `Painter.SelectColor` | draw.py:68-75 | A hit on swatch i selects i, sets the brush to palette colour i and clears the eraser; off the palette nothing changes; validity is preserved; position and canvas are untouched |
| `Painter.Step` | draw.py:54-83 | One hand preserves the invariant. Its position update depends on the gesture. A reset hit leaves an empty canvas, even after a stroke stamped in the same step. Otherwise the old canvas is kept as a prefix, plus at most the one stroke. Swatch hits select whatever the gesture. An eraser hit turns the eraser on even over a palette hit. Without a hit, selection, brush and eraser are unchanged |
| `Painter.Tick` | draw.py:47-83 | Processing all hands of a frame preserves the selection invariant and that every stroke is an erase stroke or a palette-colour brush stroke |
| `Painter.TickSplit` | draw.py:47-48 | Processing a list of hands equals processing any prefix and then the rest from the resulting state |
| `Painter.TickFirstHandFirst` | draw.py:47-48 | The tick is a left fold: the first hand is applied to the state before the tick, then the rest |
| `Painter.LastHandWins` | draw.py:48-83 | The last hand processed decides the previous position. Its reset hit leaves an empty canvas. Its eraser hit leaves the eraser on. Its hit on swatch i leaves i selected with palette colour i, and the eraser off unless it also hits the eraser button |
| `Painter.EmptyFrameKeepsPosition` | draw.py:47-64 | A frame with no detected hand changes nothing, including the previous position, so a drawing hand in the next frame is joined by a stroke to the position from before |
| `Painter.HandsShareLastPosition` | draw.py:48-64 | All hands of one frame share one previous position: a second drawing hand is joined by a stroke from the first hand's pointer |
| `Painter.CanvasGrowsWithoutReset` | draw.py:58-79 | If no hand hits reset, the canvas before the frame is a prefix of the canvas after it, with at most one new stroke per hand |
| `Painter.ResetLeavesOnlyLaterStrokes` | draw.py:58-79 | After hand k hits reset, the canvas holds at most one stroke per later hand |
| `Painter.GapBreaksStroke` | draw.py:58-66 | After a hand out of the drawing gesture, the next hand adds no stroke, so no line joins a position from before the gap |
| `Painter.SentinelCoordinateBreaksStroke` | draw.py:60-66 | A drawing hand whose x or y is -1 records a position that counts as absent, so the next hand adds no stroke from it |
| `Painter.EraserThenDraw` | draw.py:58-83 | After an eraser hit, the selection and brush colour are kept, and the next stroke is black with width 30 from the previous pointer to the new one |
| `Painter.SelectThenDraw` | draw.py:58-75 | After a hit on swatch i the eraser is off, the brush is palette colour i, and the next stroke uses that colour with width 10 |
| `App.AirCanvas.constructor` | draw.py:6-20 | The fields start at the initial state and satisfy the object invariant |
| `App.AirCanvas.HandleHand` | draw.py:50-83 | Updating the fields in place for one hand, palette loop included, yields exactly `Step` of the old fields and preserves the invariant |
| `App.AirCanvas.ProcessHand` | draw.py:43-83 | The loop over the detected hands yields exactly `Tick` of the old fields and preserves the invariant |
| `App.AirCanvas.DrawUi` | draw.py:26-41 | The overlay operations are those of `Overlay`. Every swatch is filled in its colour. The selected swatch is outlined exactly when the eraser is off |

## Left out

- Hand detection and `draw_landmarks` are foreign calls into a machine-learning library. A hand is given as its pointer and four landmark heights.
- The pointer's scaling from normalised floats to pixels (`int(x * width)`, truncation toward zero) is left out. The pointer arrives as integers. Because it is left out, the model admits every integer pointer, including -1.
- The pointer's `y` and the gesture's index-tip height come from the same landmark coordinate in the source. `Hand` takes them as independent inputs. This admits more hands than the source can produce, so every property proved holds for the source's hands too.
- Rasterisation of rectangles, text and lines, and the labels' font, scale 0.8, black text colour and thickness 2, the horizontal flip, the colour conversion and the 0.5/0.5 blend are left out. They are foreign image operations on floats. Strokes and overlay items are recorded as values instead.
- The `run` loop is left out: opening the camera, reading frames, display, polling for 'q', and releasing resources are all I/O. The canvas starts as `None` in the source and is created by `run` before the first `process_hand`. The model starts from the empty canvas instead.
- `brush_size` and `colors` are fields in the source that nothing ever reassigns. They are the constants `BRUSH_SIZE` and `PALETTE` here.
- Frame dimensions are taken as parameters and assumed constant. Canvas size and resizing are not modelled, since strokes are not rasterised.
