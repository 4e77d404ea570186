# Gesture volume control: the per-frame control step

The program watches a webcam, finds a hand, and uses the distance between
the thumb tip and the index fingertip (a "pinch") to set the speaker volume.
It draws feedback over the frame: a glow on both fingertips, a line between
them, a level bar and a percentage readout.

This project models the arithmetic inside the frame loop of `main.py`.
Camera, hand detector and audio device stay outside. The model covers:

- **Landmarks** (`landmarks.dfy`): the landmark list of the first detected
  hand, converted to pixels with Python's `int()`. Fingertips 4 and 8 are
  read from it. The pinch length is taken exactly: `IsHypot` says it is the
  non-negative root of the squared integer offset.
- **Mappings** (`numeric.dfy`, `control.dfy`): `np.interp` as a clamped
  linear map over exact reals. It is applied three times: to the device
  level, to the bar offset `volBar` (300 down to 0) and to the percentage
  `volPer` (0 to 100).
- **State** (`control.dfy`): a `VolumeControl` class holds the device range,
  `volBar` and `volPer`. A ghost trace records each level sent to the
  device. A frame without a hand changes nothing. The functions `Next`,
  `Run`, `Sent` and `LastPinch` describe any sequence of frames.
- **Drawing** (`canvas.dfy`, `widgets.dfy`, `control.dfy`): each frame gives
  a list of primitives (filled rectangles, filled circles, lines, texts)
  instead of pixels. The model covers the rounded rectangle, the gradient
  behind the bar, the glow, the three-pass pinch line, the padded text
  backgrounds, the bar geometry and the `int(volPer)%` readout
  (`format.dfy`).

Two behaviours of the code are worth knowing:

- `draw_rounded_rect` has no guard for a box lower than two radii
  (`h < 2 * radius`). Its second rectangle is then upside down
  (`RoundedRectInvertedWhenShort`), and the corner discs paint beyond the
  box: the top ones below its bottom edge, the bottom ones above its top
  edge (`RoundedRectSpillsWhenShort`). This happens whenever the filled part
  of the bar is under 40 pixels high, which every pinch of at most 72 pixels
  gives (`ShortBarSpills`). At a closed pinch the bar is passed top 400 and
  height 0, yet paints down to y = 440, 40 pixels below the bar's frame, and
  up to y = 360 (`ClosedBarSpills`).
- On frames without a hand the code keeps `volBar` and `volPer` but draws
  neither the bar nor the readout. Only the two instruction labels are
  drawn then (`VolumeControl.Step`).

## Model

| member | source | states |
|---|---|---|
| `Numeric.Trunc` | main.py:99 | Python's `int()` on a float truncates toward zero: the result is within one of the input and no farther from zero |
| `Numeric.Interp` | main.py:122-125 | `np.interp` with one segment: the result always lies between the two targets, in either order; at or below the first source point it is the first target; at or above the second it is the second |
| `Numeric.InterpMonotone` | main.py:122-125 | over lengths, interp is non-decreasing for an increasing target range and non-increasing for a decreasing one |
| `Numeric.InterpAffine` | main.py:122-125 | mapping into an affinely transformed target range gives the transformed mapped value |
| `Landmarks.BuildLandmarkList` | main.py:94-100 | no hands give an empty list; otherwise only the first hand is used, and entry k is `[k, int(x_k*w), int(y_k*h)]` for every landmark in order |
| `Landmarks.ToLandmark` | main.py:97-100 | the entry keeps the landmark's index; a relative coordinate in [0, 1] becomes a pixel in [0, w] or [0, h] |
| `Landmarks.Tip` | main.py:104-105 | a fingertip given in [0, 1] relative coordinates lands in [0, w] × [0, h] (x = 1.0 gives column w, one past the last pixel) |
| `Landmarks.IsHypot` | main.py:114 | `length` is `math.hypot(x2-x1, y2-y1)` taken exactly: the non-negative number whose square is the squared pixel offset |
| `Landmarks.HypotUnique` | main.py:114 | the exact pinch length is determined by the two fingertips |
| `Landmarks.HypotBelow` | main.py:114-115 | the length is below a non-negative bound exactly when the squared offset is below the bound squared |
| `Control.Level` | main.py:122 | the level sent lies in the device range; it is `minVol` for a pinch up to 50 and `maxVol` from 220 on |
| `Control.BarOffset` | main.py:124 | `volBar` lies in [0, 300]; it is 300 for a pinch up to 50 and 0 from 220 on |
| `Control.Percent` | main.py:125 | `volPer` lies in [0, 100]; it is 0 for a pinch up to 50 and 100 from 220 on |
| `Control.MappingsMonotone` | main.py:122-125 | a longer pinch never lowers the percentage, never raises the bar offset, and never lowers the level when `minVol <= maxVol` |
| `Control.BarMirrorsPercent` | main.py:124-125 | the bar offset and the percentage describe the same fill: offset = 300 - 3 * percent |
| `Control.LevelFollowsPercent` | main.py:122-125 | the level is the same fraction of the device range as the percentage is of 100 |
| `Control.LineColor` | main.py:115 | the close colour is chosen exactly for a pinch shorter than 50, the normal colour exactly from 50 on |
| `Control.LineColorBySquaredDistance` | main.py:114-115 | the close colour is used exactly when the squared integer offset is below 2500, so a distance of exactly 50 gets the normal colour |
| `Control.BoundaryPinchIsNormal` | main.py:114-115 | fingertips at (100,100) and (100,150) are exactly 50 apart and get the normal line colour |
| `Control.WidePinchIsFull` | main.py:114-125 | fingertips 220 apart give `maxVol`, a bar offset of 0 and 100% |
| `Control.ClosedPinchIsEmpty` | main.py:114-125 | coincident fingertips give `minVol`, a bar offset of 300 and 0% |
| `Control.Next` | main.py:103-125 | a frame without a hand keeps the state; a frame with a hand gives `volBar` in [0, 300], `volPer` in [0, 100] and `volBar = 300 - 3 * volPer` |
| `Control.Run` | main.py:19-125 | after any sequence of frames the state is either the starting state or one a hand produced, as `Next` describes it |
| `Control.Sent` | main.py:122-123 | frames never send more levels than there are frames |
| `Control.RunFollowsLastPinch` | main.py:19-125 | after any frames, the kept state is the mapping of the last detected pinch, or the starting state if no frame had a hand |
| `Control.RunWithoutPinch` | main.py:103 | frames without a hand change neither `volBar` nor `volPer` and send no level |
| `Control.StartingValuesUntilFirstHand` | main.py:19-125 | before the first detection `volBar` is 400 and `volPer` is 0, and nothing has been sent |
| `Control.KeptValuesInRange` | main.py:124-125 | once a hand has been seen, the kept `volBar` is in [0, 300] and `volPer` in [0, 100] |
| `Control.SentWithinDeviceRange` | main.py:122-123 | every level ever sent lies within the device range |
| `Control.SentOncePerPinch` | main.py:123 | exactly one level is sent per frame with a hand |
| `Control.BarTop` | main.py:139 | `int(BAR_Y + volBar)`: for a non-negative offset, at least 100 and the whole part of `100 + volBar` |
| `Control.BarFill` | main.py:141 | `int(BAR_HEIGHT - volBar)`: for an offset up to 300, non-negative and the whole part of `300 - volBar` |
| `Control.BarInsideFrame` | main.py:137-142 | for an offset in [0, 300], the bar's top `int(BAR_Y+volBar)` is in [100, 400], its height `int(BAR_HEIGHT-volBar)` is in [0, 300], and top plus height is 399 or 400 |
| `Control.DrawnBarInsideFrame` | main.py:137-142 | for any pinch, the top and height passed to `draw_rounded_rect` are in [100, 400] and [0, 300], and the box they span ends no lower than 400 (the painted discs can reach beyond it: `ShortBarSpills`) |
| `Control.ShortBarSpills` | main.py:137-142 | for a pinch of at most 72 pixels the filled height is under 40, and the drawn bar paints 40 pixels below the top passed to `draw_rounded_rect` and 40 pixels above the bottom |
| `Control.ClosedBarSpills` | main.py:137-142 | at a closed pinch the bar is passed top 400 and height 0, and paints (70, 440) and (70, 360) |
| `Control.PercentText` | main.py:145 | `f'{int(volPer)}%'` ends in `%` after at least one character; for a non-negative `volPer` the rest is `str(int(volPer))` |
| `Control.DisplayedPercentInRange` | main.py:145 | the readout's number `int(volPer)` is in 0..100; the text is one to three digits then `%`, and the digits read back as that number |
| `Control.HandDrawing` | main.py:107-164 | a frame with a hand draws 321 primitives: ten glow discs, then the pinch line (first pass 3 wide), the 300 gradient rows, the six bar shapes and the readout, whose text comes last |
| `Control.DrawFeedback` | main.py:107-164 | the drawing calls of a frame with a hand, made one after another, produce exactly `HandDrawing` |
| `Control.Labels` | main.py:172-185 | the labels of the instruction loop, two drawing calls per (text, position) |
| `Control.LabelsLayout` | main.py:172-185 | for each (text, position) in order: entry 2k is the black patch around that text's measured size, entry 2k+1 the white text at that position |
| `Control.RetentionScenario` | main.py:19-125 | a frame with a hand at a 169-pixel pinch keeps 70% and offset 90; a following frame without a hand keeps 70% |
| `Control.DrawInstructions` | main.py:166-185 | the instruction loop draws, for each (text, position) in order, its black background and its text |
| `Control.InstructionsLayout` | main.py:167-185 | the two instructions are drawn at (10, 30) and (490, 30), each after the black patch padded around its own measured text |
| `Control.VolumeControl.constructor` | main.py:18-19 | the device range is read once; `volBar` starts at 400 and `volPer` at 0, with nothing sent |
| `Control.VolumeControl.Step` | main.py:93-164 | with no hand: state and sent levels unchanged, only the instructions drawn. With a hand: the level is sent, `volBar`/`volPer` are the mappings of the pinch length, and the glow, pinch line, gradient, bar and readout are drawn before the instructions |
| `Widgets.RoundedRect` | main.py:44-51 | a rounded rectangle is six filled shapes (two rectangles, four discs), all in the given colour |
| `Widgets.RoundedRectWithinBox` | main.py:44-51 | when the box is at least two radii wide and high, no painted pixel lies outside it |
| `Widgets.RoundedRectReachesEdges` | main.py:44-51 | the midpoints of all four edges of the box are painted |
| `Widgets.RoundedRectCornersCut` | main.py:44-51 | with a positive radius, the four corners of the box are left unpainted |
| `Widgets.RoundedRectInvertedWhenShort` | main.py:45 | the code has no guard for a box lower than two radii: the second rectangle's top edge is then below its bottom edge |
| `Widgets.RoundedRectSpillsWhenShort` | main.py:40-51 | for a box lower than two radii, the top corner discs paint below the box's bottom edge and the bottom corner discs above its top edge |
| `Widgets.CreateGradientBar` | main.py:55-58 | the row loop produces exactly the gradient rows, in order |
| `Widgets.GradientRowsSpec` | main.py:55-58 | the gradient is exactly h one-pixel lines, row i at y+i across the bar; every channel of every row lies between the start and end colours; row 0 is the start colour |
| `Widgets.Mix` | main.py:57 | the channel blend is exactly the start value at weight 0 and exactly the end value at weight 1 |
| `Widgets.GradientColor` | main.py:57 | the colour of gradient row i; row 0 has the start colour |
| `Widgets.GradientRows` | main.py:55-58 | one row per `i` in `range(h)`: h rows, none when h <= 0 |
| `Widgets.GradientChannelBetween` | main.py:57 | each channel `int(s*(1-i/h) + e*i/h)` lies between s and e |
| `Widgets.GradientChannelMonotone` | main.py:56-57 | going down the bar, each channel moves monotonically from its start value toward its end value |
| `Widgets.MixBetween` | main.py:57 | truncating a blend of two integers with weight in [0, 1] gives a value between them |
| `Widgets.MixMonotone` | main.py:57 | the truncated blend moves monotonically toward the end value as the weight grows |
| `Widgets.GlowChannel` | main.py:109-110 | a glow channel computed on integers: for a non-negative `c * radius` it is the whole number of times 15 fits into `c * radius` |
| `Widgets.GlowChannelIsTrunc` | main.py:109-110 | the integer form equals `Trunc(c * (radius / 15))`, Python's `int(c * (radius / 15))` over exact reals, for every sign |
| `Widgets.GlowDiscs` | main.py:108-112 | two discs per radius of `range(start, 0, -3)`: an even number of discs, each with a radius in (0, start]; the count 2n for start = 3n is `GlowDiscsLayout` |
| `Widgets.GlowColor` | main.py:110 | the colour of a glow disc, one `GlowChannel` per channel of `HAND_COLOR`; its bounds are `GlowColorBounds` |
| `Widgets.DrawGlow` | main.py:108-112 | the radius loop `range(15, 0, -3)` produces exactly the glow discs |
| `Widgets.GlowDiscsLayout` | main.py:108-112 | starting at radius 3n the glow draws 2n discs; disc k has radius 3n - 3(k/2) and sits on the thumb for even k, on the index tip for odd k |
| `Widgets.GlowRadii` | main.py:108-112 | the glow draws ten discs, two per radius, only at radii 15, 12, 9, 6 and 3 |
| `Widgets.GlowChannelBounds` | main.py:109-110 | a glow channel `int(c*r/15)` is between 0 and c, and equals c at radius 15 |
| `Widgets.GlowColorBounds` | main.py:109-110 | no glow disc is brighter than `HAND_COLOR` in any channel, and the radius-15 disc is exactly `HAND_COLOR` |
| `Widgets.GlowChannelMonotone` | main.py:109-110 | a glow channel never grows as the radius shrinks |
| `Widgets.GlowDimsInward` | main.py:108-112 | each smaller disc, drawn on top, is no brighter than a larger one |
| `Widgets.PinchLines` | main.py:118-119 | three lines, each between 1 and 3 pixels wide |
| `Widgets.DrawPinchLine` | main.py:118-119 | the three-pass loop produces exactly the pinch lines |
| `Widgets.PinchLinesTaper` | main.py:118-119 | the pinch line is the same segment in the same colour, drawn with widths 3, 2 and 1 in that order |
| `Widgets.TextBackground` | main.py:151-155 | the patch is a filled black rectangle that covers the text origin whenever the measured size is non-negative |
| `Widgets.Label` | main.py:151-164 | a label is its background patch followed by the text at the given origin |
| `Widgets.TextBackgroundPads` | main.py:151-155 | the black background paints exactly the pixels within 5 of the text's measured box |
| `Format.IntToString` | main.py:145 | `str()` of an int starts with `-` exactly for a negative number; the digits after it read back as the number's absolute value |
| `Format.NatToString` | main.py:145 | `str()` of a non-negative int is a non-empty string of decimal digits without a leading zero |
| `Format.NatToStringRoundTrip` | main.py:145 | reading the written digits back gives the original number |
| `Format.NatToStringLength` | main.py:145 | numbers up to 100 take one to three digits, and exactly one when below 10 |

## Left out

- Camera capture, `imshow`, `waitKey` and window teardown (main.py:23-25, 66-69, 187-192) are I/O. A failed read skips the iteration before any state is touched, which is the same as not calling `Step`. Pressing 'q' ends the loop. Neither is modelled further.
- The MediaPipe detector (main.py:61-64, 81) is a foreign model. Its result is the `hands` input of `Step`: an empty sequence when it finds no hand.
- `mp_drawing.draw_landmarks` (main.py:84-91) draws the detector's skeleton with library styles. It is not part of the draw list.
- The pycaw/COM audio interface (main.py:15-18, 123) is a foreign call. `GetVolumeRange` becomes the constructor's two parameters. Each `SetMasterVolumeLevel` call becomes an entry of the ghost trace `sent`.
- The darkening overlay: the black full-frame rectangle and its `cv2.addWeighted` blend at 0.3 (main.py:75-77). This is floating-point image blending.
- Rasterisation by cv2 is library internals. Only filled rectangles and filled circles are given pixel coverage; lines and texts are kept as primitives.
- Floating point: the model uses exact reals. `math.hypot` is not computed. `Step` takes the pinch length as a parameter and requires it to be the exact distance between the two fingertip pixels. Bit-exact float rounding of `hypot`, `np.interp` and the colour formulas is not modelled.
- `cv2.getTextSize` (main.py:146, 173) is an input: the `measure` function passed to `Step`.
- `VolumeControl.Step`: requires the first hand to have the detector's 21 landmarks. The code would fail with an index error on a hand with between 1 and 8 landmarks, and the detector never produces one.
- `BuildLandmarkList`: the frame size is read from `image.shape` for each landmark in the code. In the model it is the `width`/`height` parameters of the frame.
