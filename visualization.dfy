/**
 * The state the visualization keeps between events (the ordered store of
 * balls and the two overlay flags) and the four event handlers that
 * change it: a request spawns a ball, a frame moves, prunes and paints,
 * and the 'f' and 'r' keys flip the flags.
 */
module Visualization {
  import opened Balls
  import opened Drawing

  class BallsVisualization {
    /** Canvas size, fixed when the visualization starts. */
    const width: nat
    const height: nat

    var balls: seq<Ball>
    var showFps: bool
    var showRpms: bool

    /** Every ball in the store is one the request handler could have created. */
    ghost predicate Valid()
      reads this`balls
    {
      && 4 * BALL_RADIUS <= height
      && forall b :: b in balls ==> Spawnable(b, height)
    }

    /** Start-up: an empty store and both readings shown. */
    constructor (width: nat, height: nat)
      requires 4 * BALL_RADIUS <= height
      ensures Valid()
      ensures this.width == width && this.height == height
      ensures balls == [] && showFps && showRpms
    {
      this.width, this.height := width, height;
      balls := [];
      showFps, showRpms := true, true;
    }

    /**
     * The request handler. The sampled colour, row and speed are passed
     * in; their ranges are those the sampling draws from. The new ball is
     * appended at the end, starting at the left edge, and no other ball
     * changes.
     */
    method OnRequest(color: string, y: int, speed: real)
      requires Valid()
      requires color in COLORS
      requires 2 * BALL_RADIUS <= y <= height - 2 * BALL_RADIUS
      requires SpeedInRange(speed)
      modifies this`balls
      ensures Valid()
      ensures |balls| == |old(balls)| + 1 && balls[..|old(balls)|] == old(balls)
      ensures balls[|balls| - 1] == Ball(color, speed, y, 0.0)
    {
      balls := balls + [Ball(color, speed, y, 0.0)];
    }

    /**
     * The frame handler. It clears the canvas, moves every ball by its
     * speed times `delta` and paints it, prunes the off-canvas balls when
     * `count` is a multiple of the prune interval, and paints the overlay.
     * `fps` and `rpms` are the host's readings for this frame.
     */
    method OnFrame(delta: real, count: nat, fps: real, rpms: real) returns (commands: seq<DrawCommand>)
      requires Valid()
      modifies this`balls
      ensures Valid()
      ensures balls == AfterFrame(old(balls), delta, count, width)
      ensures commands == FrameDrawing(old(balls), delta, count, width, height, showFps, showRpms, fps, rpms)
    {
      ghost var before := balls;
      ghost var stepped := StepAll(before, delta);
      commands := [Background(width, height)];
      var i := 0;
      while i < |balls|
        invariant 0 <= i <= |before| == |balls|
        invariant balls == stepped[..i] + before[i..]
        invariant commands == [Background(width, height)] + Discs(stepped[..i])
        decreases |balls| - i
      {
        StepNext(before, stepped, delta, i);
        assert balls[i] == before[i];
        var ball := balls[i];
        var dist := ball.speed * delta;
        ball := ball.(x := ball.x + dist);
        assert ball == Moved(before[i], delta);
        balls := balls[i := ball];
        commands := commands + [DiscOf(ball)];
        DiscsAppend(stepped[..i], ball);
        i := i + 1;
      }
      assert stepped[..i] == stepped && before[i..] == [];
      assert balls == stepped;
      ghost var painted := commands;
      assert painted == [Background(width, height)] + Discs(stepped);
      if PruneFrame(count) {
        balls := Prune(balls, width);
      }
      assert balls == AfterFrame(before, delta, count, width);
      AfterFrameSpawnable(before, delta, count, width, height);
      var overlay := [CountLabel(|balls|, height)];
      if showFps {
        overlay := overlay + [FpsLabel(fps, height)];
      }
      if showRpms {
        overlay := overlay + [RpmsLabel(rpms, height)];
      }
      assert overlay == Overlay(|AfterFrame(before, delta, count, width)|, height, showFps, showRpms, fps, rpms);
      commands := commands + overlay;
    }

    /** The 'f' key: flips whether the fps reading is shown, and nothing else. */
    method OnFpsKey()
      modifies this`showFps
      ensures showFps == !old(showFps)
      ensures balls == old(balls) && showRpms == old(showRpms)
      ensures old(Valid()) ==> Valid()
    {
      showFps := !showFps;
    }

    /** The 'r' key: flips whether the rpms reading is shown, and nothing else. */
    method OnRpmsKey()
      modifies this`showRpms
      ensures showRpms == !old(showRpms)
      ensures balls == old(balls) && showFps == old(showFps)
      ensures old(Valid()) ==> Valid()
    {
      showRpms := !showRpms;
    }
  }

  /**
   * A client run: on an 800 by 600 canvas, one request with speed 400 and
   * one non-pruning frame of one second leave one ball, 400 pixels in, and
   * the overlay counts one ball.
   */
  method OneBallScenario(fps: real, rpms: real) {
    var v := new BallsVisualization(800, 600);
    v.OnRequest("Aqua", 300, 400.0);
    var commands := v.OnFrame(1.0, 1, fps, rpms);
    assert v.balls == [Ball("Aqua", 400.0, 300, 400.0)];
    FrameDrawingOrder([Ball("Aqua", 400.0, 300, 0.0)], 1.0, 1, 800, 600, true, true, fps, rpms);
    assert commands[2] == CountLabel(1, 600);
  }

  /** A client run: each key pressed twice restores its flag and leaves the store alone. */
  method TogglesScenario(v: BallsVisualization)
    requires v.Valid()
    modifies v
  {
    ghost var balls, fps, rpms := v.balls, v.showFps, v.showRpms;
    v.OnFpsKey();
    assert v.showFps != fps && v.showRpms == rpms;
    v.OnFpsKey();
    v.OnRpmsKey();
    v.OnRpmsKey();
    assert v.balls == balls && v.showFps == fps && v.showRpms == rpms && v.Valid();
  }
}
