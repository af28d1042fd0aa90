/**
 * What the frame handler paints, as an abstract list of canvas commands in
 * the order it issues them.
 */
module Drawing {
  import opened Balls

  /** The text of an overlay label, kept abstract: the number it shows and its unit. */
  datatype Label = BallCount(balls: nat) | FramesPerSecond(fps: real) | RequestsPerMinute(rpms: real)

  /** One filled shape on the canvas, with the fill style it is painted in. */
  datatype DrawCommand =
    | FillRect(style: string, left: int, top: int, w: int, h: int)
    | FillDisc(style: string, cx: real, cy: int, radius: nat)
    | FillText(style: string, font: string, text: Label, left: int, baseline: int)

  // Left edges of the overlay labels, and their distance from the bottom edge.
  const COUNT_LEFT: int := 15
  const FPS_LEFT: int := 90
  const RPMS_LEFT: int := 140
  const LABEL_BOTTOM_MARGIN: int := 15

  /** The black rectangle that clears the whole canvas. */
  function Background(width: nat, height: nat): DrawCommand {
    FillRect(BACKGROUND, 0, 0, width, height)
  }

  /** The disc that shows a ball, in the ball's colour. */
  function DiscOf(b: Ball): DrawCommand {
    FillDisc(b.color, b.x, b.y, BALL_RADIUS)
  }

  function CountLabel(n: nat, height: nat): DrawCommand {
    FillText(TEXT_STYLE, TEXT_FONT, BallCount(n), COUNT_LEFT, height - LABEL_BOTTOM_MARGIN)
  }

  function FpsLabel(fps: real, height: nat): DrawCommand {
    FillText(TEXT_STYLE, TEXT_FONT, FramesPerSecond(fps), FPS_LEFT, height - LABEL_BOTTOM_MARGIN)
  }

  function RpmsLabel(rpms: real, height: nat): DrawCommand {
    FillText(TEXT_STYLE, TEXT_FONT, RequestsPerMinute(rpms), RPMS_LEFT, height - LABEL_BOTTOM_MARGIN)
  }

  /** One disc per ball, in store order. */
  function Discs(bs: seq<Ball>): (r: seq<DrawCommand>)
    ensures |r| == |bs|
    ensures forall i :: 0 <= i < |bs| ==> r[i].FillDisc? && r[i] == DiscOf(bs[i])
  {
    if bs == [] then [] else [DiscOf(bs[0])] + Discs(bs[1..])
  }

  /** Painting one more ball appends one more disc. */
  lemma DiscsAppend(bs: seq<Ball>, b: Ball)
    ensures Discs(bs + [b]) == Discs(bs) + [DiscOf(b)]
  {
    assert forall i :: 0 <= i < |bs| ==> (bs + [b])[i] == bs[i];
  }

  /** The overlay: the ball count, then the fps and rpms readings the flags ask for. */
  function Overlay(n: nat, height: nat, showFps: bool, showRpms: bool, fps: real, rpms: real): seq<DrawCommand> {
    [CountLabel(n, height)]
      + (if showFps then [FpsLabel(fps, height)] else [])
      + (if showRpms then [RpmsLabel(rpms, height)] else [])
  }

  /** Everything one frame paints, given the store as it was before the frame. */
  function FrameDrawing(bs: seq<Ball>, delta: real, count: nat, width: nat, height: nat,
                        showFps: bool, showRpms: bool, fps: real, rpms: real): seq<DrawCommand>
  {
    [Background(width, height)]
      + Discs(StepAll(bs, delta))
      + Overlay(|AfterFrame(bs, delta, count, width)|, height, showFps, showRpms, fps, rpms)
  }

  /**
   * The order of a frame's drawing: the background first, then one disc
   * per ball at its new position in store order, then the count of the
   * balls left after the prune, then the fps label when `showFps` holds,
   * then the rpms label when `showRpms` holds, and nothing else.
   */
  lemma FrameDrawingOrder(bs: seq<Ball>, delta: real, count: nat, width: nat, height: nat,
                          showFps: bool, showRpms: bool, fps: real, rpms: real)
    ensures var cmds := FrameDrawing(bs, delta, count, width, height, showFps, showRpms, fps, rpms);
      var n := |bs|;
      && |cmds| == n + 2 + (if showFps then 1 else 0) + (if showRpms then 1 else 0)
      && cmds[0] == Background(width, height)
      && (forall i :: 0 <= i < n ==> cmds[1 + i] == DiscOf(StepAll(bs, delta)[i]))
      && cmds[n + 1] == CountLabel(|AfterFrame(bs, delta, count, width)|, height)
      && (showFps ==> cmds[n + 2] == FpsLabel(fps, height))
      && (showRpms ==> cmds[|cmds| - 1] == RpmsLabel(rpms, height))
  {
    var n := |AfterFrame(bs, delta, count, width)|;
    var discs := Discs(StepAll(bs, delta));
    var overlay := Overlay(n, height, showFps, showRpms, fps, rpms);
    OverlayOnlyText(n, height, showFps, showRpms, fps, rpms);
    var cmds := [Background(width, height)] + discs + overlay;
    assert forall i :: 0 <= i < |discs| ==> cmds[1 + i] == discs[i];
    assert forall j :: 0 <= j < |overlay| ==> cmds[1 + |discs| + j] == overlay[j];
  }

  /** The fps and rpms readings are painted exactly when their flags are set. */
  lemma FrameDrawsReadingsIffShown(bs: seq<Ball>, delta: real, count: nat, width: nat, height: nat,
                                   showFps: bool, showRpms: bool, fps: real, rpms: real)
    ensures var cmds := FrameDrawing(bs, delta, count, width, height, showFps, showRpms, fps, rpms);
      && (FpsLabel(fps, height) in cmds <==> showFps)
      && (RpmsLabel(rpms, height) in cmds <==> showRpms)
  {
    var discs := Discs(StepAll(bs, delta));
    var overlay := Overlay(|AfterFrame(bs, delta, count, width)|, height, showFps, showRpms, fps, rpms);
    OverlayOnlyText(|AfterFrame(bs, delta, count, width)|, height, showFps, showRpms, fps, rpms);
    var front := [Background(width, height)] + discs;
    assert FpsLabel(fps, height) !in front && RpmsLabel(rpms, height) !in front by {
      forall c | c in front ensures !c.FillText? {
        var k :| 0 <= k < |front| && front[k] == c;
        if k > 0 { assert c == discs[k - 1]; }
      }
    }
    assert FrameDrawing(bs, delta, count, width, height, showFps, showRpms, fps, rpms) == front + overlay;
  }

  lemma OverlayOnlyText(n: nat, height: nat, showFps: bool, showRpms: bool, fps: real, rpms: real)
    ensures var o := Overlay(n, height, showFps, showRpms, fps, rpms);
      && |o| == 1 + (if showFps then 1 else 0) + (if showRpms then 1 else 0)
      && o[0] == CountLabel(n, height)
      && (showFps ==> o[1] == FpsLabel(fps, height))
      && (showRpms ==> o[|o| - 1] == RpmsLabel(rpms, height))
      && (FpsLabel(fps, height) in o <==> showFps)
      && (RpmsLabel(rpms, height) in o <==> showRpms)
  {
  }

  /**
   * A ball that a prune frame removes is still painted in that frame, at
   * the position that put it off the canvas.
   */
  lemma PrunedBallsStillDrawn(bs: seq<Ball>, delta: real, count: nat, width: nat, height: nat,
                              showFps: bool, showRpms: bool, fps: real, rpms: real, i: nat)
    requires PruneFrame(count)
    requires i < |bs|
    requires !OnCanvas(StepAll(bs, delta)[i], width)
    ensures StepAll(bs, delta)[i] !in AfterFrame(bs, delta, count, width)
    ensures FrameDrawing(bs, delta, count, width, height, showFps, showRpms, fps, rpms)[1 + i]
         == DiscOf(StepAll(bs, delta)[i])
  {
    var b := StepAll(bs, delta)[i];
    PruneCounts(StepAll(bs, delta), width);
    assert multiset(AfterFrame(bs, delta, count, width))[b] == 0;
    FrameDrawingOrder(bs, delta, count, width, height, showFps, showRpms, fps, rpms);
  }
}
