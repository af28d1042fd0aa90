/**
 * The values of the ball visualization: the settings, the ball record,
 * and the pure functions that say what one frame does to the ordered
 * store of balls and what it draws, with the lemmas about them.
 */
module Balls {

  // The settings the visualization defines once, at start-up.
  const BALL_RADIUS: nat := 3
  const MIN_BALL_SPEED: nat := 300
  const MAX_BALL_SPEED: nat := 500
  /** Off-canvas balls are removed on every frame whose count is a multiple of this. */
  const PRUNE_INTERVAL: nat := 20
  const COLORS: seq<string> := [
    "Orange", "AntiqueWhite ", "Aqua", "Coral", "Pink", "GoldenRod", "Khaki", "LightSlateGray",
    "MediumSeaGreen", "Olive"
  ]

  // Styles of the background and of the overlay text.
  const BACKGROUND: string := "black"
  const TEXT_STYLE: string := "white"
  const TEXT_FONT: string := "12px Arial"

  /**
   * One ball. Colour, speed and row are fixed when the ball is created;
   * only `x` moves, by `speed` pixels per second of frame time.
   */
  datatype Ball = Ball(color: string, speed: real, y: int, x: real)

  /** A speed the request handler can draw: a whole number of pixels per second in the configured range. */
  predicate SpeedInRange(speed: real) {
    && MIN_BALL_SPEED as real <= speed <= MAX_BALL_SPEED as real
    && speed.Floor as real == speed
  }

  /** What every ball the request handler creates satisfies on a canvas `height` pixels high. */
  predicate Spawnable(b: Ball, height: int) {
    && b.color in COLORS
    && SpeedInRange(b.speed)
    && 2 * BALL_RADIUS <= b.y <= height - 2 * BALL_RADIUS
  }

  /** A ball is kept by the prune while its left edge has not passed the right edge of the canvas. */
  predicate OnCanvas(b: Ball, width: int) {
    b.x < (width + BALL_RADIUS) as real
  }

  /** The ball after `delta` seconds of motion. */
  function Moved(b: Ball, delta: real): Ball {
    b.(x := b.x + b.speed * delta)
  }

  /** Every ball advanced by one frame of `delta` seconds, in store order. */
  function StepAll(bs: seq<Ball>, delta: real): (r: seq<Ball>)
    ensures |r| == |bs|
  {
    if bs == [] then [] else [Moved(bs[0], delta)] + StepAll(bs[1..], delta)
  }

  /** The ball at position `i` after a frame is the ball at `i` before it, moved. */
  lemma {:induction false} StepAllAt(bs: seq<Ball>, delta: real, i: nat)
    requires i < |bs|
    ensures StepAll(bs, delta)[i] == Moved(bs[i], delta)
  {
    if i > 0 {
      StepAllAt(bs[1..], delta, i - 1);
    }
  }

  /**
   * The frame handler's loop, one ball further: with the first `i` balls
   * moved and the rest as they were, moving ball `i` in place moves the
   * first `i + 1`.
   */
  lemma StepNext(bs: seq<Ball>, stepped: seq<Ball>, delta: real, i: nat)
    requires stepped == StepAll(bs, delta) && i < |bs|
    ensures (stepped[..i] + bs[i..])[i] == bs[i]
    ensures (stepped[..i] + bs[i..])[i := Moved(bs[i], delta)] == stepped[..i + 1] + bs[i + 1..]
    ensures stepped[..i + 1] == stepped[..i] + [Moved(bs[i], delta)]
  {
    StepAllAt(bs, delta, i);
    assert (stepped[..i] + bs[i..])[i] == bs[i..][0];
    assert stepped[..i + 1] == stepped[..i] + [stepped[i]];
    assert bs[i..] == [bs[i]] + bs[i + 1..];
  }

  /**
   * One frame moves every ball by exactly its speed times `delta`, keeps
   * its colour, speed and row, and keeps the store's length and order.
   */
  lemma StepAllMoves(bs: seq<Ball>, delta: real)
    ensures |StepAll(bs, delta)| == |bs|
    ensures forall i :: 0 <= i < |bs| ==>
      && StepAll(bs, delta)[i].color == bs[i].color
      && StepAll(bs, delta)[i].speed == bs[i].speed
      && StepAll(bs, delta)[i].y == bs[i].y
      && StepAll(bs, delta)[i].x == bs[i].x + bs[i].speed * delta
  {
    forall i | 0 <= i < |bs|
      ensures StepAll(bs, delta)[i] == Moved(bs[i], delta)
    {
      StepAllAt(bs, delta, i);
    }
  }

  /** The store filtered down to the balls still on the canvas, in their order. */
  function Prune(bs: seq<Ball>, width: int): (r: seq<Ball>)
    ensures |r| <= |bs|
    ensures forall i :: 0 <= i < |r| ==> OnCanvas(r[i], width)
  {
    if bs == [] then []
    else (if OnCanvas(bs[0], width) then [bs[0]] else []) + Prune(bs[1..], width)
  }

  /** A prune keeps every on-canvas ball as often as it occurs, and no off-canvas ball. */
  lemma {:induction false} PruneCounts(bs: seq<Ball>, width: int)
    ensures forall b :: multiset(Prune(bs, width))[b] == if OnCanvas(b, width) then multiset(bs)[b] else 0
  {
    if bs != [] {
      assert bs == [bs[0]] + bs[1..];
      PruneCounts(bs[1..], width);
    }
  }

  /** Whether the frame with this counter value prunes the store. */
  predicate PruneFrame(count: nat) {
    count % PRUNE_INTERVAL == 0
  }

  /** The store after the frame handler, given the frame's `delta` and `count`. */
  function AfterFrame(bs: seq<Ball>, delta: real, count: nat, width: int): seq<Ball> {
    var stepped := StepAll(bs, delta);
    if PruneFrame(count) then Prune(stepped, width) else stepped
  }

  // ----- Properties of pruning -----

  /** Pruning distributes over concatenation: it keeps the relative order of the balls it keeps. */
  lemma {:induction false} PruneConcat(a: seq<Ball>, b: seq<Ball>, width: int)
    ensures Prune(a + b, width) == Prune(a, width) + Prune(b, width)
  {
    if a == [] {
      assert a + b == b;
    } else {
      assert (a + b)[1..] == a[1..] + b;
      PruneConcat(a[1..], b, width);
    }
  }

  /** A prune removes nothing when every ball is on the canvas. */
  lemma {:induction false} PruneKeepsOnCanvas(bs: seq<Ball>, width: int)
    requires forall i :: 0 <= i < |bs| ==> OnCanvas(bs[i], width)
    ensures Prune(bs, width) == bs
  {
    if bs != [] {
      PruneKeepsOnCanvas(bs[1..], width);
    }
  }

  /** A prune empties a store in which every ball is off the canvas. */
  lemma {:induction false} PruneDropsOffCanvas(bs: seq<Ball>, width: int)
    requires forall i :: 0 <= i < |bs| ==> !OnCanvas(bs[i], width)
    ensures Prune(bs, width) == []
  {
    if bs != [] {
      PruneDropsOffCanvas(bs[1..], width);
    }
  }

  /** Every ball a prune keeps was in the store it pruned. */
  lemma PruneSubset(bs: seq<Ball>, width: int)
    ensures forall b :: b in Prune(bs, width) ==> b in bs
  {
    PruneCounts(bs, width);
    forall b | b in Prune(bs, width) ensures b in bs {
      assert multiset(Prune(bs, width))[b] > 0;
    }
  }

  // ----- Properties of one frame -----

  /** A frame whose count is not a multiple of the prune interval neither adds nor removes balls. */
  lemma FrameWithoutPruneKeepsLength(bs: seq<Ball>, delta: real, count: nat, width: int)
    requires !PruneFrame(count)
    ensures |AfterFrame(bs, delta, count, width)| == |bs|
  {
  }

  /**
   * In a frame whose count is a multiple of the prune interval, a stepped
   * ball leaves the store exactly when it is off the canvas; afterwards
   * every ball is on the canvas.
   */
  lemma PruneFrameRemovesExactlyOffCanvas(bs: seq<Ball>, delta: real, count: nat, width: int)
    requires PruneFrame(count)
    ensures var after := AfterFrame(bs, delta, count, width);
      && (forall i :: 0 <= i < |after| ==> OnCanvas(after[i], width))
      && (forall b :: multiset(after)[b] ==
            if OnCanvas(b, width) then multiset(StepAll(bs, delta))[b] else 0)
  {
    PruneCounts(StepAll(bs, delta), width);
  }

  /** Frames keep every ball a ball the request handler could have created. */
  lemma AfterFrameSpawnable(bs: seq<Ball>, delta: real, count: nat, width: int, height: int)
    requires forall b :: b in bs ==> Spawnable(b, height)
    ensures forall b :: b in AfterFrame(bs, delta, count, width) ==> Spawnable(b, height)
  {
    var stepped := StepAll(bs, delta);
    StepAllMoves(bs, delta);
    forall b | b in stepped ensures Spawnable(b, height) {
      var i :| 0 <= i < |stepped| && stepped[i] == b;
      assert bs[i] in bs;
    }
    PruneSubset(stepped, width);
  }

  /** With a non-negative `delta`, a frame never moves a ball to the left. */
  lemma StepAllMovesRight(bs: seq<Ball>, delta: real, height: int)
    requires 0.0 <= delta
    requires forall b :: b in bs ==> Spawnable(b, height)
    ensures forall i :: 0 <= i < |bs| ==> bs[i].x <= StepAll(bs, delta)[i].x
  {
    forall i | 0 <= i < |bs| ensures bs[i].x <= StepAll(bs, delta)[i].x {
      assert bs[i] in bs;
      StepAllAt(bs, delta, i);
      assert 0.0 <= bs[i].speed * delta;
    }
  }

  // ----- Several frames -----

  /** A frame event: seconds since the previous frame, and the frame counter. */
  datatype Tick = Tick(delta: real, count: nat)

  /** The store after a sequence of frames, oldest first. */
  function Frames(bs: seq<Ball>, ticks: seq<Tick>, width: int): seq<Ball>
    decreases |ticks|
  {
    if ticks == [] then bs
    else Frames(AfterFrame(bs, ticks[0].delta, ticks[0].count, width), ticks[1..], width)
  }

  /** Total frame time of a sequence of frames. */
  function Elapsed(ticks: seq<Tick>): real {
    if ticks == [] then 0.0 else ticks[0].delta + Elapsed(ticks[1..])
  }

  /** A single ball moved through a sequence of frames, as if it were never pruned. */
  function Travelled(b: Ball, ticks: seq<Tick>): Ball
    decreases |ticks|
  {
    if ticks == [] then b else Travelled(Moved(b, ticks[0].delta), ticks[1..])
  }

  /** A ball's motion over several frames is its speed times their total time. */
  lemma {:induction false} TravelledLinear(b: Ball, ticks: seq<Tick>)
    ensures Travelled(b, ticks) == b.(x := b.x + b.speed * Elapsed(ticks))
    decreases |ticks|
  {
    if ticks != [] {
      var s, d, rest := b.speed, ticks[0].delta, ticks[1..];
      TravelledLinear(Moved(b, d), rest);
      assert s * d + s * Elapsed(rest) == s * (d + Elapsed(rest));
    }
  }

  /** Frames none of which prunes move every ball independently and keep the store's order. */
  lemma {:induction false} FramesWithoutPruneMoveEach(bs: seq<Ball>, ticks: seq<Tick>, width: int)
    requires forall k :: 0 <= k < |ticks| ==> !PruneFrame(ticks[k].count)
    ensures |Frames(bs, ticks, width)| == |bs|
    ensures forall i :: 0 <= i < |bs| ==> Frames(bs, ticks, width)[i] == Travelled(bs[i], ticks)
    decreases |ticks|
  {
    if ticks != [] {
      var next := AfterFrame(bs, ticks[0].delta, ticks[0].count, width);
      assert next == StepAll(bs, ticks[0].delta);
      forall i | 0 <= i < |bs| ensures next[i] == Moved(bs[i], ticks[0].delta) {
        StepAllAt(bs, ticks[0].delta, i);
      }
      FramesWithoutPruneMoveEach(next, ticks[1..], width);
    }
  }

  /**
   * Between prunes, positions accumulate linearly: after frames none of
   * which prunes, every ball is still there, in its place, and has moved by
   * its speed times the total frame time.
   */
  lemma FramesWithoutPruneAccumulate(bs: seq<Ball>, ticks: seq<Tick>, width: int, i: nat)
    requires forall k :: 0 <= k < |ticks| ==> !PruneFrame(ticks[k].count)
    requires i < |bs|
    ensures |Frames(bs, ticks, width)| == |bs|
    ensures Frames(bs, ticks, width)[i].color == bs[i].color
    ensures Frames(bs, ticks, width)[i].speed == bs[i].speed
    ensures Frames(bs, ticks, width)[i].y == bs[i].y
    ensures Frames(bs, ticks, width)[i].x == bs[i].x + bs[i].speed * Elapsed(ticks)
  {
    FramesWithoutPruneMoveAt(bs, ticks, width, i);
    TravelledLinear(bs[i], ticks);
  }

  lemma FramesWithoutPruneMoveAt(bs: seq<Ball>, ticks: seq<Tick>, width: int, i: nat)
    requires forall k :: 0 <= k < |ticks| ==> !PruneFrame(ticks[k].count)
    requires i < |bs|
    ensures |Frames(bs, ticks, width)| == |bs|
    ensures Frames(bs, ticks, width)[i] == Travelled(bs[i], ticks)
  {
    FramesWithoutPruneMoveEach(bs, ticks, width);
  }

  /**
   * A store of balls that start at or right of the left edge is empty after
   * a run of frames that ends in the first prune, when the slowest possible
   * ball covers more than the canvas width in that time.
   */
  lemma SweepClearsStore(bs: seq<Ball>, ticks: seq<Tick>, width: nat, height: int)
    requires forall b :: b in bs ==> Spawnable(b, height) && 0.0 <= b.x
    requires |ticks| > 0
    requires forall k :: 0 <= k < |ticks| - 1 ==> !PruneFrame(ticks[k].count)
    requires PruneFrame(ticks[|ticks| - 1].count)
    requires ((width + BALL_RADIUS) as real) <= MIN_BALL_SPEED as real * Elapsed(ticks)
    ensures Frames(bs, ticks, width) == []
  {
    var n := |ticks| - 1;
    var last, before := ticks[n], ticks[..n];
    assert ticks == before + [last];
    FramesAppend(bs, before, last, width);
    FramesWithoutPruneKeepLength(bs, before, width);
    var stepped := StepAll(Frames(bs, before, width), last.delta);
    forall i | 0 <= i < |stepped| ensures !OnCanvas(stepped[i], width) {
      assert bs[i] in bs;
      SweptAt(bs, before, last, width, i);
    }
    PruneDropsOffCanvas(stepped, width);
  }

  /** The position of one ball in the frame that ends a sweep run. */
  lemma SweptAt(bs: seq<Ball>, before: seq<Tick>, last: Tick, width: nat, i: nat)
    requires forall k :: 0 <= k < |before| ==> !PruneFrame(before[k].count)
    requires i < |bs| && MIN_BALL_SPEED as real <= bs[i].speed && 0.0 <= bs[i].x
    requires ((width + BALL_RADIUS) as real) <= MIN_BALL_SPEED as real * Elapsed(before + [last])
    ensures |StepAll(Frames(bs, before, width), last.delta)| == |bs|
    ensures !OnCanvas(StepAll(Frames(bs, before, width), last.delta)[i], width)
  {
    var mid := Frames(bs, before, width);
    FramesWithoutPruneMoveAt(bs, before, width, i);
    StepAllAt(mid, last.delta, i);
    TravelledAppend(bs[i], before, last);
    TravelledLinear(bs[i], before + [last]);
    SlowestCoversLeast(bs[i].speed, Elapsed(before + [last]));
  }

  /** The slowest possible ball covers the least distance in a given time. */
  lemma SlowestCoversLeast(s: real, t: real)
    requires MIN_BALL_SPEED as real <= s
    requires 0.0 < MIN_BALL_SPEED as real * t
    ensures MIN_BALL_SPEED as real * t <= s * t
  {
  }

  lemma {:induction false} FramesWithoutPruneKeepLength(bs: seq<Ball>, ticks: seq<Tick>, width: int)
    requires forall k :: 0 <= k < |ticks| ==> !PruneFrame(ticks[k].count)
    ensures |Frames(bs, ticks, width)| == |bs|
    decreases |ticks|
  {
    if ticks != [] {
      FramesWithoutPruneKeepLength(AfterFrame(bs, ticks[0].delta, ticks[0].count, width), ticks[1..], width);
    }
  }

  lemma {:induction false} FramesAppend(bs: seq<Ball>, ticks: seq<Tick>, last: Tick, width: int)
    ensures Frames(bs, ticks + [last], width) == AfterFrame(Frames(bs, ticks, width), last.delta, last.count, width)
    decreases |ticks|
  {
    if ticks == [] {
      assert (ticks + [last])[1..] == [];
    } else {
      assert (ticks + [last])[1..] == ticks[1..] + [last];
      FramesAppend(AfterFrame(bs, ticks[0].delta, ticks[0].count, width), ticks[1..], last, width);
    }
  }

  lemma {:induction false} TravelledAppend(b: Ball, ticks: seq<Tick>, last: Tick)
    ensures Travelled(b, ticks + [last]) == Moved(Travelled(b, ticks), last.delta)
    decreases |ticks|
  {
    if ticks == [] {
      assert (ticks + [last])[1..] == [];
    } else {
      assert (ticks + [last])[1..] == ticks[1..] + [last];
      TravelledAppend(Moved(b, ticks[0].delta), ticks[1..], last);
    }
  }

  /**
   * Whether a ball, moved through a sequence of frames, is still in the
   * store at the end: after every pruning frame of the run it is on the
   * canvas.
   */
  predicate Survives(b: Ball, ticks: seq<Tick>, width: int)
    decreases |ticks|
  {
    ticks == [] ||
      var m := Moved(b, ticks[0].delta);
      (!PruneFrame(ticks[0].count) || OnCanvas(m, width)) && Survives(m, ticks[1..], width)
  }

  /** The balls that survive a sequence of frames, each moved through all of it, in store order. */
  function Survivors(bs: seq<Ball>, ticks: seq<Tick>, width: int): seq<Ball> {
    if bs == [] then []
    else
      var kept := if Survives(bs[0], ticks, width) then [Travelled(bs[0], ticks)] else [];
      kept + Survivors(bs[1..], ticks, width)
  }

  lemma {:induction false} SurvivorsConcat(a: seq<Ball>, b: seq<Ball>, ticks: seq<Tick>, width: int)
    ensures Survivors(a + b, ticks, width) == Survivors(a, ticks, width) + Survivors(b, ticks, width)
  {
    if a == [] {
      assert a + b == b;
    } else {
      assert (a + b)[1..] == a[1..] + b;
      SurvivorsConcat(a[1..], b, ticks, width);
    }
  }

  /** One frame, then the rest of the run, leaves the survivors of the whole run. */
  lemma {:induction false} SurvivorsAfterFrame(bs: seq<Ball>, ticks: seq<Tick>, width: int)
    requires ticks != []
    ensures Survivors(AfterFrame(bs, ticks[0].delta, ticks[0].count, width), ticks[1..], width)
         == Survivors(bs, ticks, width)
  {
    var d, c, rest := ticks[0].delta, ticks[0].count, ticks[1..];
    if bs != [] {
      var m := Moved(bs[0], d);
      var tail := StepAll(bs[1..], d);
      var head := if !PruneFrame(c) || OnCanvas(m, width) then [m] else [];
      assert StepAll(bs, d) == [m] + tail;
      if PruneFrame(c) {
        assert ([m] + tail)[1..] == tail;
        PruneConcat([m], tail, width);
      }
      assert AfterFrame(bs, d, c, width) == head + AfterFrame(bs[1..], d, c, width);
      SurvivorsConcat(head, AfterFrame(bs[1..], d, c, width), rest, width);
      SurvivorsAfterFrame(bs[1..], ticks, width);
    }
  }

  /**
   * A run of frames, pruning or not, leaves exactly the balls that survive
   * it, in their original order, each moved through every frame of the run.
   */
  lemma {:induction false} FramesKeepSurvivors(bs: seq<Ball>, ticks: seq<Tick>, width: int)
    ensures Frames(bs, ticks, width) == Survivors(bs, ticks, width)
    decreases |ticks|
  {
    if ticks == [] {
      SurvivorsNoFrames(bs, width);
    } else {
      FramesKeepSurvivors(AfterFrame(bs, ticks[0].delta, ticks[0].count, width), ticks[1..], width);
      SurvivorsAfterFrame(bs, ticks, width);
    }
  }

  lemma {:induction false} SurvivorsNoFrames(bs: seq<Ball>, width: int)
    ensures Survivors(bs, [], width) == bs
  {
    if bs != [] {
      SurvivorsNoFrames(bs[1..], width);
    }
  }

  /**
   * After any run of frames, every ball left is a ball of the original
   * store that has moved by its speed times the run's total time.
   */
  lemma FramesMoveSurvivorsLinearly(bs: seq<Ball>, ticks: seq<Tick>, width: int, b: Ball) returns (b0: Ball)
    requires b in Frames(bs, ticks, width)
    ensures b0 in bs
    ensures b.color == b0.color && b.speed == b0.speed && b.y == b0.y
    ensures b.x == b0.x + b0.speed * Elapsed(ticks)
  {
    FramesKeepSurvivors(bs, ticks, width);
    b0 := SurvivorOrigin(bs, ticks, width, b);
    TravelledLinear(b0, ticks);
  }

  lemma {:induction false} SurvivorOrigin(bs: seq<Ball>, ticks: seq<Tick>, width: int, b: Ball) returns (b0: Ball)
    requires b in Survivors(bs, ticks, width)
    ensures b0 in bs && b == Travelled(b0, ticks)
  {
    if Survives(bs[0], ticks, width) && b == Travelled(bs[0], ticks) {
      b0 := bs[0];
    } else {
      b0 := SurvivorOrigin(bs[1..], ticks, width, b);
    }
  }
}
