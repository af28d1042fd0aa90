# Ball visualization, modelled in Dafny

This project models the example visualization of the Bogey log viewer
(`index.js`). One ball is sent across a canvas for every request the server
logs. Its state is an ordered store of balls, each with a colour, a speed, a
row `y` and a column `x`, plus two flags that say whether the frames-per-second
(fps) and requests-per-minute (rpms) readings are shown. Four event handlers
drive it:

- a **request** appends one new ball at the left edge, with a palette colour,
  a random row and a random speed;
- a **frame** clears the canvas, moves every ball by `speed * delta` and paints
  it, removes the balls that have left the canvas when the frame counter is a
  multiple of 20, and paints the overlay: the ball count, then the fps and rpms
  readings when their flags are set;
- the **'f'** and **'r'** keys each flip one flag.

Files:

- `balls.dfy`, module `Balls`: the settings, the `Ball` record, the functions
  that say what a frame does to the store (`StepAll`, `Prune`, `AfterFrame`,
  `Frames` over a run of frames, `Survivors` for the balls a run leaves) and
  the lemmas about them.
- `drawing.dfy`, module `Drawing`: the canvas commands a frame issues, as an
  abstract list (`FillRect`, `FillDisc`, `FillText`), the function
  `FrameDrawing` that gives a frame's list, and the lemmas about its order.
- `visualization.dfy`, module `Visualization`: the class `BallsVisualization`.
  It holds the store and the flags as fields. Its methods are the four
  handlers. `OnFrame` moves the balls in place in a loop, as the source does,
  and is proved to leave exactly `AfterFrame(old(balls), …)` and to return
  exactly `FrameDrawing(old(balls), …)`. Two client methods replay small
  runs: one ball on an 800×600 canvas, and each key pressed twice.

Modelling choices:

- The random choices of the request handler are parameters of `OnRequest`.
  Their ranges are its preconditions: the colour is one of the ten palette
  entries, the row is a whole number in `[6, height - 6]`, and the speed is a
  whole number in `[300, 500]`. The sampling helper draws whole numbers from
  an inclusive range, which is why both are whole.
- `x`, `speed` and the frame's `delta` are Dafny `real`s. There is no
  floating-point rounding.
- The frame counter is a `nat`. On non-negative numbers Dafny's `%` agrees
  with JavaScript's `%`.
- The palette keeps the source's entries exactly, including the trailing space
  in `"AntiqueWhite "`.
- The canvas size is a constructor argument. The constructor requires
  `height >= 12`, twice the row margin of `2 * BALL_RADIUS`. For a lower
  canvas the source samples the row from an empty range and leaves the
  outcome unspecified. The code has no clamp for that case, so the model
  excludes it.
- The fps and rpms readings are inputs of `OnFrame`. The host computes them.

## Model

| member | source | states |
|---|---|---|
| `Balls.Spawnable` | index.js:60-62 | a ball the request handler can create: a palette colour, a whole speed in `[300, 500]` and a row in `[6, height - 6]` |
| `Balls.Moved` | index.js:86-89 | a ball after `delta` seconds: `x` grows by `speed * delta`, and nothing else changes |
| `Balls.OnCanvas` | index.js:104 | the prune's test: the ball is kept while `x < width + BALL_RADIUS` |
| `Balls.AfterFrame` | index.js:80-106 | the store after a frame: every ball moved, then filtered by `OnCanvas` when the count is a multiple of 20 |
| `Balls.StepAll` | index.js:80-89 | moving the balls keeps the length of the store |
| `Balls.StepAllAt` | index.js:80-89 | the ball at each position after the move is the ball at that position before it, advanced by its speed times `delta` |
| `Balls.StepAllMoves` | index.js:84-89 | every ball's `x` grows by exactly `speed * delta`; its colour, speed and row are unchanged; the store keeps its length and order |
| `Balls.StepAllMovesRight` | index.js:86-89 | with a non-negative `delta`, no ball moves left |
| `Balls.Prune` | index.js:102-106 | every ball the filter keeps has `x < width + BALL_RADIUS`, and the result is no longer than the store |
| `Balls.PruneCounts` | index.js:103-105 | the filter keeps each on-canvas ball exactly as often as it occurs and drops every off-canvas ball |
| `Balls.PruneConcat` | index.js:103-105 | the filter keeps relative order: filtering a concatenation is concatenating the filtered parts |
| `Balls.PruneKeepsOnCanvas` | index.js:103-105 | the filter removes nothing from a store that is all on the canvas |
| `Balls.PruneDropsOffCanvas` | index.js:103-105 | the filter empties a store that is all off the canvas |
| `Balls.PruneSubset` | index.js:103-105 | every ball the filter keeps was in the store |
| `Balls.FrameWithoutPruneKeepsLength` | index.js:80-106 | a frame whose count is not a multiple of 20 neither adds nor removes balls |
| `Balls.PruneFrameRemovesExactlyOffCanvas` | index.js:102-106 | in a frame whose count is a multiple of 20, a moved ball leaves the store if and only if it is off the canvas, and every ball left is on the canvas |
| `Balls.AfterFrameSpawnable` | index.js:80-106 | a frame keeps every ball one that a request could have created: palette colour, speed in range, row in range |
| `Balls.TravelledLinear` | index.js:86-89 | a ball moved through several frames has advanced by its speed times their total time, with nothing else changed |
| `Balls.FramesWithoutPruneMoveEach` | index.js:80-106 | frames none of which prunes keep the store's length and move each ball on its own, in place |
| `Balls.FramesWithoutPruneAccumulate` | index.js:80-106 | after frames none of which prunes, the ball at each position has `x` equal to its starting `x` plus speed times the sum of the deltas, with colour, speed and row unchanged |
| `Balls.SweepClearsStore` | index.js:80-106 | balls starting at or right of the left edge are all gone after a run of frames ending in the first prune, when the slowest speed times the run's time reaches `width + BALL_RADIUS` |
| `Balls.FramesKeepSurvivors` | index.js:80-106 | any run of frames, pruning or not, leaves exactly the balls that were on the canvas after every pruning frame of the run, in their original order, each moved through every frame |
| `Balls.SurvivorsAfterFrame` | index.js:80-106 | one frame followed by the rest of a run leaves the same survivors as the whole run |
| `Balls.FramesMoveSurvivorsLinearly` | index.js:86-89 | after any run of frames, every ball left comes from the original store with the same colour, speed and row, and has moved by its speed times the run's total time |
| `Drawing.Discs` | index.js:91-98 | one disc per ball in store order, each in the ball's colour at its position with radius `BALL_RADIUS` |
| `Drawing.DiscsAppend` | index.js:80-99 | painting one more ball appends exactly one more disc |
| `Drawing.Overlay` | index.js:108-120 | the overlay a frame paints: the count label, then the fps label when shown, then the rpms label when shown, white, in 12px Arial, 15 pixels above the bottom edge |
| `Drawing.FrameDrawing` | index.js:76-120 | everything a frame paints: the background, one disc per moved ball, then the overlay with the count after the prune |
| `Drawing.OverlayOnlyText` | index.js:108-120 | the overlay is the count label first, then the fps label second when fps is shown, then the rpms label last when rpms is shown; each reading appears if and only if its flag is set |
| `Drawing.FrameDrawingOrder` | index.js:76-120 | a frame paints the black background first, then one disc per moved ball in store order, then the count of the balls left after the prune, then the fps label when shown, then the rpms label last when shown, and nothing else |
| `Drawing.FrameDrawsReadingsIffShown` | index.js:113-120 | the fps reading is painted if and only if `showFps` is set, and the rpms reading if and only if `showRpms` is set |
| `Drawing.PrunedBallsStillDrawn` | index.js:80-106 | a ball that a prune frame removes is absent from the store afterwards yet was painted in that frame, at the position that put it off the canvas |
| `Visualization.BallsVisualization.constructor` | index.js:34-36 | the store starts empty and both readings start shown |
| `Visualization.BallsVisualization.OnRequest` | index.js:57-71 | exactly one ball is appended at the end with `x = 0` and the sampled colour, row and speed; earlier balls are unchanged; the store stays valid |
| `Visualization.BallsVisualization.OnFrame` | index.js:74-121 | the store becomes `AfterFrame` of the old store (move all, then prune on every 20th count) and the commands returned are exactly `FrameDrawing` of the old store and the flags |
| `Visualization.BallsVisualization.OnFpsKey` | index.js:124-126 | `showFps` is flipped; the store and `showRpms` are unchanged, so the store stays valid |
| `Visualization.BallsVisualization.OnRpmsKey` | index.js:129-131 | `showRpms` is flipped; the store and `showFps` are unchanged, so the store stays valid |

## Left out

- Reading the thumbnail file and building the plugin export object (index.js:10-22): file I/O and host registration.
- Creating the canvas with jQuery and sizing it to the container (index.js:42-54): DOM glue. The canvas size is a constructor argument instead.
- The call that sets the host's message colour to white (index.js:39): a host call with no effect on this state.
- Subscribing the handlers with `bogey.on` and `bogey.registerKey`: the handlers are methods that a caller invokes directly, one at a time.
- Pixel rendering through the 2D context: each fill is one abstract draw command with its fill style and, for text, its font.
- The text of the overlay labels: a label carries the number it shows and its unit (`BallCount`, `FramesPerSecond`, `RequestsPerMinute`). Turning a number into a decimal string is not modelled.
- Randomness: `_.sample` and `_.random` are replaced by the parameters of `OnRequest`, with their ranges as preconditions. Uniformity is not modelled.
- Floating-point rounding of `speed * delta` and `x`: the model uses exact reals.
- A canvas lower than 12 pixels: the constructor excludes it, because the source samples the row from an empty range there.
- The values of the fps and rpms readings: the host computes them and they are opaque inputs.
