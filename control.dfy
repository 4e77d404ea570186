/**
 * The per-frame control step: the pinch distance is mapped onto the device
 * level, the bar offset and the percentage; the level is sent to the device;
 * the bar and the percentage are kept from frame to frame; and the frame's
 * feedback is drawn.
 */
module Control {
  import opened Wrappers
  import opened Numeric
  import opened Canvas
  import opened Widgets
  import opened Landmarks
  import opened Format

  // ---------------------------------------------------------------------
  // Constants of the frame loop

  const PinchMin := 50.0
  const PinchMax := 220.0
  const NearThreshold := 50.0

  const FrameWidth := 640
  const BarWidth := 40
  const BarHeight := 300
  const BarX := 50
  const BarY := 100
  const GradientTop := Color(30, 30, 30)
  const GradientBottom := Color(50, 50, 50)

  const PercentScale := 1.0
  const InstructionScale := 0.7
  const PercentOrigin := Pixel(BarX - 10, BarY + BarHeight + 40)
  const Instructions: seq<(string, Pixel)> :=
    [("Pinch fingers to control volume", Pixel(10, 30)),
     ("Press 'q' to quit", Pixel(FrameWidth - 150, 30))]

  // ---------------------------------------------------------------------
  // The three range mappings

  /** The device level sent for a pinch of the given length. */
  function Level(length: real, minVol: real, maxVol: real): (v: real)
    ensures Min(minVol, maxVol) <= v <= Max(minVol, maxVol)
    ensures length <= PinchMin ==> v == minVol
    ensures PinchMax <= length ==> v == maxVol
  {
    Interp(length, PinchMin, PinchMax, minVol, maxVol)
  }

  /** volBar: how far below the top of the bar its filled part starts. */
  function BarOffset(length: real): (b: real)
    ensures 0.0 <= b <= BarHeight as real
    ensures length <= PinchMin ==> b == BarHeight as real
    ensures PinchMax <= length ==> b == 0.0
  {
    Interp(length, PinchMin, PinchMax, BarHeight as real, 0.0)
  }

  /** volPer: the percentage shown below the bar. */
  function Percent(length: real): (p: real)
    ensures 0.0 <= p <= 100.0
    ensures length <= PinchMin ==> p == 0.0
    ensures PinchMax <= length ==> p == 100.0
  {
    Interp(length, PinchMin, PinchMax, 0.0, 100.0)
  }

  /**
   * A longer pinch never lowers the percentage, never raises the bar
   * offset, and never lowers the level when the device range is increasing.
   */
  lemma MappingsMonotone(l1: real, l2: real, minVol: real, maxVol: real)
    requires l1 <= l2
    ensures Percent(l1) <= Percent(l2)
    ensures BarOffset(l2) <= BarOffset(l1)
    ensures minVol <= maxVol ==> Level(l1, minVol, maxVol) <= Level(l2, minVol, maxVol)
  {
    InterpMonotone(l1, l2, PinchMin, PinchMax, 0.0, 100.0);
    InterpMonotone(l1, l2, PinchMin, PinchMax, BarHeight as real, 0.0);
    InterpMonotone(l1, l2, PinchMin, PinchMax, minVol, maxVol);
  }

  /** The bar offset and the percentage always describe the same fill: offset = 300 - 3 * percent. */
  lemma BarMirrorsPercent(length: real)
    ensures BarOffset(length) == BarHeight as real - 3.0 * Percent(length)
  {
    InterpAffine(length, PinchMin, PinchMax, 0.0, 100.0, BarHeight as real, -3.0);
  }

  /** The level sent is the same fraction of the device range as the percentage shown. */
  lemma LevelFollowsPercent(length: real, minVol: real, maxVol: real)
    ensures Level(length, minVol, maxVol) == minVol + (maxVol - minVol) / 100.0 * Percent(length)
  {
    var b := (maxVol - minVol) / 100.0;
    InterpAffine(length, PinchMin, PinchMax, 0.0, 100.0, minVol, b);
    assert minVol + b * 0.0 == minVol && minVol + b * 100.0 == maxVol;
  }

  // ---------------------------------------------------------------------
  // Proximity

  /** The line is drawn in the close colour exactly when the pinch is shorter than 50. */
  function LineColor(length: real): (c: Color)
    ensures c == LineColorClose <==> length < NearThreshold
    ensures c == LineColorNormal <==> NearThreshold <= length
  {
    if length < NearThreshold then LineColorClose else LineColorNormal
  }

  /**
   * Over the exact distance, the close colour is chosen exactly when the
   * squared integer offset is below 2500, so a distance of exactly 50 gets
   * the normal colour.
   */
  lemma LineColorBySquaredDistance(p: Pixel, q: Pixel, length: real)
    requires IsHypot(p, q, length)
    ensures LineColor(length) == LineColorClose <==> SqDist(p, q) < 2500
  {
    HypotBelow(p, q, length, NearThreshold);
  }

  // ---------------------------------------------------------------------
  // State kept across frames

  /** volBar and volPer, which keep their values through frames without a hand. */
  datatype ControlState = ControlState(volBar: real, volPer: real)

  const Initial := ControlState(400.0, 0.0)

  function Mapped(length: real): ControlState
  {
    ControlState(BarOffset(length), Percent(length))
  }

  /** A state the mappings can produce: both values in range, describing the same fill. */
  predicate Consistent(s: ControlState)
  {
    0.0 <= s.volBar <= BarHeight as real && 0.0 <= s.volPer <= 100.0
    && s.volBar == BarHeight as real - 3.0 * s.volPer
  }

  /** One frame: `pinch` is the pinch length when a hand was detected. */
  function Next(s: ControlState, pinch: Option<real>): (n: ControlState)
    ensures pinch.None? ==> n == s
    ensures pinch.Some? ==> Consistent(n)
  {
    match pinch
    case None => s
    case Some(length) =>
      BarMirrorsPercent(length);
      Mapped(length)
  }

  /** The state after a sequence of frames, the last frame applied last. */
  function Run(s: ControlState, frames: seq<Option<real>>): (r: ControlState)
    ensures r == s || Consistent(r)
    decreases |frames|
  {
    if frames == [] then s else Next(Run(s, frames[..|frames| - 1]), frames[|frames| - 1])
  }

  /** The levels sent to the device over a sequence of frames, one per detected hand. */
  function Sent(frames: seq<Option<real>>, minVol: real, maxVol: real): (levels: seq<real>)
    ensures |levels| <= |frames|
    decreases |frames|
  {
    if frames == [] then []
    else
      Sent(frames[..|frames| - 1], minVol, maxVol)
      + match frames[|frames| - 1]
        case None => []
        case Some(length) => [Level(length, minVol, maxVol)]
  }

  /** Appending a frame applies one more step. */
  lemma RunAppend(s: ControlState, frames: seq<Option<real>>, frame: Option<real>)
    ensures Run(s, frames + [frame]) == Next(Run(s, frames), frame)
  {
    assert (frames + [frame])[..|frames|] == frames;
  }

  /** Appending a frame sends at most its own level. */
  lemma SentAppend(frames: seq<Option<real>>, frame: Option<real>, minVol: real, maxVol: real)
    ensures Sent(frames + [frame], minVol, maxVol)
         == Sent(frames, minVol, maxVol) + match frame
                                          case None => []
                                          case Some(length) => [Level(length, minVol, maxVol)]
  {
    assert (frames + [frame])[..|frames|] == frames;
  }

  /** The pinch length of the last frame that had a hand. */
  function LastPinch(frames: seq<Option<real>>): Option<real>
    decreases |frames|
  {
    if frames == [] then None
    else if frames[|frames| - 1].Some? then frames[|frames| - 1]
    else LastPinch(frames[..|frames| - 1])
  }

  /**
   * After any sequence of frames the state is that of the last detected
   * pinch, or the starting state if no frame had a hand.
   */
  lemma {:induction false} RunFollowsLastPinch(s: ControlState, frames: seq<Option<real>>)
    ensures Run(s, frames) == match LastPinch(frames)
                              case None => s
                              case Some(length) => Mapped(length)
    decreases |frames|
  {
    if frames != [] {
      RunFollowsLastPinch(s, frames[..|frames| - 1]);
    }
  }

  /** Frames without a hand change nothing and send nothing. */
  lemma {:induction false} RunWithoutPinch(s: ControlState, frames: seq<Option<real>>, minVol: real, maxVol: real)
    requires forall i :: 0 <= i < |frames| ==> frames[i] == None
    ensures Run(s, frames) == s
    ensures Sent(frames, minVol, maxVol) == []
    decreases |frames|
  {
    if frames != [] {
      RunWithoutPinch(s, frames[..|frames| - 1], minVol, maxVol);
    }
  }

  /** Until the first hand, volBar and volPer keep their starting values 400 and 0. */
  lemma StartingValuesUntilFirstHand(frames: seq<Option<real>>, minVol: real, maxVol: real)
    requires forall i :: 0 <= i < |frames| ==> frames[i] == None
    ensures Run(Initial, frames).volBar == 400.0 && Run(Initial, frames).volPer == 0.0
    ensures Sent(frames, minVol, maxVol) == []
  {
    RunWithoutPinch(Initial, frames, minVol, maxVol);
  }

  /** Once a hand has been seen, the kept values are within the bar and the percentage scale. */
  lemma KeptValuesInRange(s: ControlState, frames: seq<Option<real>>)
    requires LastPinch(frames).Some?
    ensures 0.0 <= Run(s, frames).volBar <= BarHeight as real
    ensures 0.0 <= Run(s, frames).volPer <= 100.0
  {
    RunFollowsLastPinch(s, frames);
  }

  /** Every level ever sent lies within the device range. */
  lemma {:induction false} SentWithinDeviceRange(frames: seq<Option<real>>, minVol: real, maxVol: real)
    ensures forall i :: 0 <= i < |Sent(frames, minVol, maxVol)| ==>
      Min(minVol, maxVol) <= Sent(frames, minVol, maxVol)[i] <= Max(minVol, maxVol)
    decreases |frames|
  {
    if frames != [] {
      SentWithinDeviceRange(frames[..|frames| - 1], minVol, maxVol);
    }
  }

  /** The number of frames that had a hand. */
  function PinchCount(frames: seq<Option<real>>): nat
    decreases |frames|
  {
    if frames == [] then 0
    else PinchCount(frames[..|frames| - 1]) + (if frames[|frames| - 1].Some? then 1 else 0)
  }

  /** Exactly one level is sent per frame with a hand. */
  lemma {:induction false} SentOncePerPinch(frames: seq<Option<real>>, minVol: real, maxVol: real)
    ensures |Sent(frames, minVol, maxVol)| == PinchCount(frames)
    decreases |frames|
  {
    if frames != [] {
      SentOncePerPinch(frames[..|frames| - 1], minVol, maxVol);
    }
  }

  // ---------------------------------------------------------------------
  // The level bar and the readout

  /** int(BAR_Y + volBar): the top of the filled part of the bar. */
  function BarTop(volBar: real): (top: int)
    ensures 0.0 <= volBar ==> BarY <= top && top as real <= BarY as real + volBar < top as real + 1.0
  {
    Trunc(BarY as real + volBar)
  }

  /** int(BAR_HEIGHT - volBar): the height of the filled part of the bar. */
  function BarFill(volBar: real): (fill: int)
    ensures volBar <= BarHeight as real ==>
      0 <= fill && fill as real <= BarHeight as real - volBar < fill as real + 1.0
  {
    Trunc(BarHeight as real - volBar)
  }

  /**
   * For an offset the mappings can produce, the filled part starts inside
   * the bar, has a height between 0 and 300, and ends at the bottom of the
   * bar or one pixel above it.
   */
  lemma BarInsideFrame(volBar: real)
    requires 0.0 <= volBar <= BarHeight as real
    ensures BarY <= BarTop(volBar) <= BarY + BarHeight
    ensures 0 <= BarFill(volBar) <= BarHeight
    ensures BarY + BarHeight - 1 <= BarTop(volBar) + BarFill(volBar) <= BarY + BarHeight
  {
    assert BarTop(volBar) == BarY + volBar.Floor;
    assert BarFill(volBar) == (BarHeight as real - volBar).Floor;
  }

  /**
   * For any pinch, the top and height passed to draw_rounded_rect keep the
   * nominal box of the filled part inside the bar's frame (what is painted
   * can reach beyond it: see ShortBarSpills).
   */
  lemma DrawnBarInsideFrame(length: real)
    ensures BarY <= BarTop(BarOffset(length)) <= BarY + BarHeight
    ensures 0 <= BarFill(BarOffset(length)) <= BarHeight
    ensures BarTop(BarOffset(length)) + BarFill(BarOffset(length)) <= BarY + BarHeight
  {
    BarInsideFrame(BarOffset(length));
  }

  /**
   * A pinch of at most 72 pixels leaves the filled part lower than two corner
   * radii, so the corner discs of the drawn bar paint below the bottom and
   * above the top of the box passed to draw_rounded_rect.
   */
  lemma ShortBarSpills(length: real)
    requires length <= 72.0
    ensures BarFill(BarOffset(length)) < 2 * CornerRadius
    ensures var top := BarTop(BarOffset(length));
      var bar := RoundedRect(BarX, top, BarWidth, BarFill(BarOffset(length)), BarColor, CornerRadius);
      AnyCovers(bar, BarX + CornerRadius, top + 2 * CornerRadius) &&
      AnyCovers(bar, BarX + CornerRadius, top + BarFill(BarOffset(length)) - 2 * CornerRadius)
  {
    MappingsMonotone(length, 72.0, 0.0, 0.0);
    assert BarOffset(72.0) == 22.0 / 170.0 * -300.0 + 300.0;
    RoundedRectSpillsWhenShort(BarX, BarTop(BarOffset(length)), BarWidth, BarFill(BarOffset(length)), BarColor, CornerRadius);
  }

  /**
   * At a closed pinch the bar is passed top 400 and height 0, yet it paints
   * (70, 440), 40 pixels below the frame, and (70, 360).
   */
  lemma ClosedBarSpills()
    ensures BarTop(BarOffset(0.0)) == BarY + BarHeight && BarFill(BarOffset(0.0)) == 0
    ensures AnyCovers(RoundedRect(BarX, BarTop(BarOffset(0.0)), BarWidth, BarFill(BarOffset(0.0)), BarColor, CornerRadius), 70, 440)
    ensures AnyCovers(RoundedRect(BarX, BarTop(BarOffset(0.0)), BarWidth, BarFill(BarOffset(0.0)), BarColor, CornerRadius), 70, 360)
  {
    TruncOfInteger(400);
    TruncOfInteger(0);
    ShortBarSpills(0.0);
  }

  /** f'{int(volPer)}%' */
  function PercentText(volPer: real): (text: string)
    ensures 2 <= |text| && text[|text| - 1] == '%'
    ensures 0.0 <= volPer ==> text[..|text| - 1] == NatToString(Trunc(volPer))
  {
    IntToString(Trunc(volPer)) + "%"
  }

  /**
   * The readout shows a whole number from 0 to 100: one to three digits
   * followed by '%', and the digits read back as int(volPer).
   */
  lemma DisplayedPercentInRange(length: real)
    ensures 0 <= Trunc(Percent(length)) <= 100
    ensures var text := PercentText(Percent(length));
      2 <= |text| <= 4 && text[|text| - 1] == '%' &&
      (forall i :: 0 <= i < |text| - 1 ==> IsDigit(text[i])) &&
      DigitsValue(text[..|text| - 1]) == Trunc(Percent(length))
  {
    var n := Trunc(Percent(length));
    TruncBetween(Percent(length), 0, 100);
    NatToStringLength(n);
    NatToStringRoundTrip(n);
    var text := PercentText(Percent(length));
    assert text[..|text| - 1] == NatToString(n);
  }

  // ---------------------------------------------------------------------
  // The frame's drawing

  /** A text over its background patch, measured by `measure` as cv2.getTextSize does. */
  function MeasuredLabel(text: string, org: Pixel, scale: real, measure: (string, real) -> Size): seq<Prim>
  {
    Label(text, org, scale, measure(text, scale))
  }

  /** What is drawn for a detected hand, after the state has been updated. */
  function HandDrawing(thumb: Pixel, index: Pixel, length: real, s: ControlState,
                       measure: (string, real) -> Size): (prims: seq<Prim>)
    ensures |prims| == 10 + PinchLinePasses + BarHeight + 6 + 2
    ensures prims[10] == Line(thumb.x, thumb.y, index.x, index.y, LineColor(length), 3)
    ensures prims[|prims| - 1]
         == Text(PercentText(s.volPer), PercentOrigin.x, PercentOrigin.y, PercentScale, TextColor, TextThickness)
  {
    GlowRadii(thumb, index);
    GlowDiscs(thumb, index, GlowMaxRadius)
    + PinchLines(thumb, index, LineColor(length))
    + GradientRows(BarX, BarY, BarWidth, BarHeight, GradientTop, GradientBottom)
    + RoundedRect(BarX, BarTop(s.volBar), BarWidth, BarFill(s.volBar), BarColor, CornerRadius)
    + MeasuredLabel(PercentText(s.volPer), PercentOrigin, PercentScale, measure)
  }

  /**
   * The drawing of a frame with a hand, in the order the frame loop draws it:
   * the glow, the pinch line, the gradient, the bar and the readout.
   */
  method DrawFeedback(thumb: Pixel, index: Pixel, length: real, s: ControlState,
                      measure: (string, real) -> Size) returns (prims: seq<Prim>)
    ensures prims == HandDrawing(thumb, index, length, s, measure)
  {
    var glow := DrawGlow(thumb, index);
    var lines := DrawPinchLine(thumb, index, LineColor(length));
    var gradient := CreateGradientBar(BarX, BarY, BarWidth, BarHeight, GradientTop, GradientBottom);
    var bar := RoundedRect(BarX, BarTop(s.volBar), BarWidth, BarFill(s.volBar), BarColor, CornerRadius);
    var text := PercentText(s.volPer);
    var size := measure(text, PercentScale);
    prims := glow + lines + gradient + bar + Label(text, PercentOrigin, PercentScale, size);
  }

  /** The labels of a list of (text, position) pairs, in order. */
  function Labels(items: seq<(string, Pixel)>, scale: real, measure: (string, real) -> Size): (prims: seq<Prim>)
    ensures |prims| == 2 * |items|
    decreases |items|
  {
    if items == [] then []
    else Labels(items[..|items| - 1], scale, measure)
         + MeasuredLabel(items[|items| - 1].0, items[|items| - 1].1, scale, measure)
  }

  /**
   * Entry 2k of the labels is the black patch around the k-th text's measured
   * size and entry 2k + 1 is that text in white at its position.
   */
  lemma {:induction false} LabelsLayout(items: seq<(string, Pixel)>, scale: real, measure: (string, real) -> Size)
    ensures forall k :: 0 <= k < |items| ==>
      Labels(items, scale, measure)[2 * k] == TextBackground(items[k].1, measure(items[k].0, scale)) &&
      Labels(items, scale, measure)[2 * k + 1] == Text(items[k].0, items[k].1.x, items[k].1.y, scale, TextColor, TextThickness)
    decreases |items|
  {
    if items != [] {
      var init := items[..|items| - 1];
      LabelsLayout(init, scale, measure);
      forall k | 0 <= k < |init|
        ensures items[k] == init[k]
      {
      }
    }
  }

  method DrawInstructions(measure: (string, real) -> Size) returns (prims: seq<Prim>)
    ensures prims == Labels(Instructions, InstructionScale, measure)
  {
    prims := [];
    for i := 0 to |Instructions|
      invariant prims == Labels(Instructions[..i], InstructionScale, measure)
    {
      var (text, pos) := Instructions[i];
      var size := measure(text, InstructionScale);
      prims := prims + Label(text, pos, InstructionScale, size);
      assert Instructions[..i + 1][..i] == Instructions[..i];
    }
    assert Instructions[..|Instructions|] == Instructions;
  }

  /**
   * The instruction labels are drawn on every frame: a black patch and a
   * text for each of the two instructions, at (10, 30) and (490, 30).
   */
  lemma InstructionsLayout(measure: (string, real) -> Size)
    ensures |Labels(Instructions, InstructionScale, measure)| == 4
    ensures Labels(Instructions, InstructionScale, measure)[1]
         == Text("Pinch fingers to control volume", 10, 30, InstructionScale, TextColor, TextThickness)
    ensures Labels(Instructions, InstructionScale, measure)[3]
         == Text("Press 'q' to quit", 490, 30, InstructionScale, TextColor, TextThickness)
    ensures Labels(Instructions, InstructionScale, measure)[0]
         == TextBackground(Pixel(10, 30), measure("Pinch fingers to control volume", InstructionScale))
    ensures Labels(Instructions, InstructionScale, measure)[2]
         == TextBackground(Pixel(490, 30), measure("Press 'q' to quit", InstructionScale))
  {
    var first := Instructions[..1];
    assert first[..0] == [];
    assert Labels(first, InstructionScale, measure)
        == MeasuredLabel(Instructions[0].0, Instructions[0].1, InstructionScale, measure);
    assert Instructions[..|Instructions| - 1] == first;
  }

  // ---------------------------------------------------------------------
  // The controller

  /**
   * The state of the frame loop: the device range read once at start-up,
   * volBar and volPer, and, as ghost state, the frames seen so far and the
   * levels sent to the device in place of the SetMasterVolumeLevel calls.
   */
  class VolumeControl {
    const minVol: real
    const maxVol: real
    var volBar: real
    var volPer: real
    ghost var history: seq<Option<real>>
    ghost var sent: seq<real>

    ghost function State(): ControlState
      reads this
    {
      ControlState(volBar, volPer)
    }

    ghost predicate Valid()
      reads this
    {
      State() == Run(Initial, history) && sent == Sent(history, minVol, maxVol)
    }

    /** minVol and maxVol are the first two values of GetVolumeRange. */
    constructor (minVol: real, maxVol: real)
      ensures Valid()
      ensures this.minVol == minVol && this.maxVol == maxVol
      ensures volBar == 400.0 && volPer == 0.0
      ensures history == [] && sent == []
    {
      this.minVol := minVol;
      this.maxVol := maxVol;
      volBar := 400.0;
      volPer := 0.0;
      history := [];
      sent := [];
    }

    /**
     * One frame. `hands` are the hands the detector found (none when it
     * found none); `width` and `height` are the frame's size; `length` is
     * math.hypot of the fingertip offset, meaningful only when there is a
     * hand; `measure` is cv2.getTextSize for the readout's font.
     */
    method Step(hands: seq<Hand>, width: int, height: int, length: real,
                measure: (string, real) -> Size) returns (drawn: seq<Prim>)
      requires Valid()
      requires hands != [] ==> |hands[0]| == LandmarkCount
      requires hands != [] ==>
        IsHypot(Tip(hands[0], ThumbTip, width, height), Tip(hands[0], IndexTip, width, height), length)
      modifies this
      ensures Valid()
      ensures history == old(history) + [if hands == [] then None else Some(length)]
      ensures hands == [] ==> volBar == old(volBar) && volPer == old(volPer) && sent == old(sent)
      ensures hands != [] ==> volBar == BarOffset(length) && volPer == Percent(length)
      ensures hands != [] ==> sent == old(sent) + [Level(length, minVol, maxVol)]
      ensures drawn == (if hands == [] then []
                        else HandDrawing(Tip(hands[0], ThumbTip, width, height),
                                         Tip(hands[0], IndexTip, width, height),
                                         length, State(), measure))
                       + Labels(Instructions, InstructionScale, measure)
    {
      var lmList := BuildLandmarkList(hands, width, height);
      assert |lmList| != 0 <==> hands != [];
      drawn := [];
      ghost var pinch: Option<real> := None;
      if |lmList| != 0 {
        var p1 := Pixel(lmList[ThumbTip].cx, lmList[ThumbTip].cy);
        var p2 := Pixel(lmList[IndexTip].cx, lmList[IndexTip].cy);
        assert p1 == Tip(hands[0], ThumbTip, width, height);
        assert p2 == Tip(hands[0], IndexTip, width, height);
        var vol := Level(length, minVol, maxVol);
        sent := sent + [vol];
        volBar := BarOffset(length);
        volPer := Percent(length);
        drawn := DrawFeedback(p1, p2, length, ControlState(volBar, volPer), measure);
        pinch := Some(length);
      }
      var instructions := DrawInstructions(measure);
      drawn := drawn + instructions;
      RunAppend(Initial, history, pinch);
      SentAppend(history, pinch, minVol, maxVol);
      history := history + [pinch];
    }
  }

  /**
   * A frame with a hand at 70% followed by a frame without a hand: the
   * percentage kept for the second frame is still 70, and only one level
   * has been sent.
   */
  method RetentionScenario() returns (withHand: real, withoutHand: real)
    ensures withHand == 70.0 && withoutHand == 70.0
  {
    var control := new VolumeControl(-65.25, 0.0);
    var hand := seq(LandmarkCount, k => if k == IndexTip then Point(0.0, 169.0 / 480.0) else Point(0.0, 0.0));
    var measure := (text: string, scale: real) => Size(10 * |text|, 20);
    assert Tip(hand, ThumbTip, 640, 480) == Pixel(0, 0);
    assert Tip(hand, IndexTip, 640, 480) == Pixel(0, 169);
    var drawn := control.Step([hand], 640, 480, 169.0, measure);
    assert control.volPer == 70.0 && control.volBar == 90.0;
    withHand := control.volPer;
    drawn := control.Step([], 640, 480, 0.0, measure);
    assert control.volBar == 90.0;
    withoutHand := control.volPer;
    assert |control.sent| == 1;
  }

  // ---------------------------------------------------------------------
  // Scenarios on the mappings

  /** Fingertips at (100, 100) and (100, 150) are exactly 50 apart: the normal colour. */
  lemma BoundaryPinchIsNormal(length: real)
    requires IsHypot(Pixel(100, 100), Pixel(100, 150), length)
    ensures length == 50.0 && LineColor(length) == LineColorNormal
  {
    HypotOfSquare(Pixel(100, 100), Pixel(100, 150), length, 50);
  }

  /** Fingertips 220 apart: the maximum level, a full bar and 100%. */
  lemma WidePinchIsFull(length: real, minVol: real, maxVol: real)
    requires IsHypot(Pixel(0, 0), Pixel(0, 220), length)
    ensures Level(length, minVol, maxVol) == maxVol
    ensures BarOffset(length) == 0.0 && Percent(length) == 100.0
  {
    HypotOfSquare(Pixel(0, 0), Pixel(0, 220), length, 220);
  }

  /** Coincident fingertips: the minimum level, an empty bar and 0%. */
  lemma ClosedPinchIsEmpty(p: Pixel, length: real, minVol: real, maxVol: real)
    requires IsHypot(p, p, length)
    ensures Level(length, minVol, maxVol) == minVol
    ensures BarOffset(length) == BarHeight as real && Percent(length) == 0.0
  {
    HypotOfSquare(p, p, length, 0);
  }
}
