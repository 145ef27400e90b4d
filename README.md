# Dot flock and fractal tree — a Dafny model

This project models the two animation engines of a personal portfolio site:

- **The dot sketch** (`sketch.js`). A flock of dots steers by separation, alignment and cohesion. Every 300 frames the dots form an eye for 180 frames: each dot seeks its slot on one of two rings around a random eye target. A pressed mouse pushes nearby dots away. A click spawns five dots, and the population is cut back when it grows too large. The `'e'` key switches the eye schedule on and off.
- **The fractal tree** (`holysource/tree.js`). A random tree of segments is grown from a trunk. It is then drawn branch by branch, erased branch by branch, and drawn again, forever.

The model follows the code's own form:

- **Dot state.** The flock is a class, `Sketch.Flock`. It holds the dot list, the schedule flag and timer, and the eye target as fields. `Draw`, `MouseClicked` and `KeyPressed` update those fields in place.
- **Frame loop.** `Draw` updates each dot in place, in index order. So dot `i` sees the already-moved dots before it and the old dots after it. The loop is proved equal to the recursive specification `Sweep`.
- **Steering.** The three steering rules are accumulator loops (`Steering.CalculateSeparation` and its siblings). Each is proved equal to a recursive tally, `Gather`, followed by the rule's own finish.
- **Tree generation.** The tree is a class, `Tree.FractalTree`. `createBranches` is a recursive method that pushes onto the branch list. It is proved equal to the recursive specification `Grow`/`Kids`.
- **Tree animation.** One frame of `animate` is proved equal to the pure transition `Step`, and the pass invariants are lemmas about `Step`.

Numbers are mathematical reals. `sqrt`, `cos` and `sin` are the fields of a `Vectors.Math` value. The only assumptions about them are:

- `sqrt` of a non-negative number is a non-negative root;
- `sqrt` is positive on positive numbers;
- `cos² + sin² = 1`.

p5's `mag`, `dist`, `normalize`, `limit` and `map` are defined from these exactly as p5 computes them.

`Math.random()` draws are inputs in `[0, 1)`:

- The sketch takes them as parameters.
- The tree reads an infinite stream `rand` and counts how many draws it has consumed.

## Model

| member | source | states |
|---|---|---|
| Vectors.LimitBound | sketch.js:164 | `limit(max)` leaves a vector of squared length at most `max²` unchanged, otherwise rescales it to exactly squared length `max²`; the result is always within `max` |
| Vectors.NormalizeUnit | sketch.js:218 | `normalize` turns a non-zero vector into a unit vector and leaves the zero vector as it is |
| Vectors.MagBelow | sketch.js:214-216 | a distance is below a radius exactly when its square is below the radius squared, and positive exactly when its square is positive |
| Vectors.Uniform | sketch.js:106-107 | `random(lo, hi)` of a draw in `[0, 1)` lies in `[lo, hi)` |
| Vectors.DoubledBound | sketch.js:134 | doubling a vector within `max` gives a vector within `2·max` |
| Formation.Tick | sketch.js:99-115 | one enabled frame: the timer counts up; reaching `interval` while flocking starts a formation with the timer at 0; reaching `duration` while forming ends it with the timer at 0 |
| Formation.TickKeepsInv | sketch.js:100-114 | flocking keeps the timer below `interval`, forming keeps it below `duration`, and the timer restarts at 0 on every switch |
| Formation.RunKeepsInv | sketch.js:100-114 | the timer invariant holds after any number of enabled frames |
| Formation.Schedule | sketch.js:99-114 | from the initial state the dots flock for frames 0..299, form from frame 300 with timer 0 for 180 frames, and are back at the initial state at frame 480 |
| Formation.EyeTarget | sketch.js:106-107 | each new eye target lies in `[0.3w, 0.7w] × [0.3h, 0.7h]` |
| Formation.RingByIndex | sketch.js:127 | dot `i` of `n` goes to the outer ring exactly when `5i < 4n`, that is when `i < ⌈0.8n⌉` |
| Formation.OuterRingSize | sketch.js:127 | exactly `⌈0.8n⌉` dots go to the outer ring and the remaining `⌊n/5⌋` to the pupil ring |
| Formation.SlotAngles | sketch.js:126 | slot angles start at 0, stay below a full turn and are spaced by `2π/n`, for the current population `n` |
| Formation.SlotOnRing | sketch.js:128-129 | every slot lies at the ring's radius from the eye target |
| Steering.NeighbourBySquares | sketch.js:212-216 | a dot is a neighbour when it is another dot at a squared distance that is positive and below the rule's reach squared |
| Steering.NeighbourExcludes | sketch.js:212-216 | the dot itself and any dot at its own position are never neighbours |
| Steering.GatherCount | sketch.js:211-224 | the neighbour count never exceeds the dots scanned; it is zero exactly when no scanned dot is a neighbour, and then the sum is zero |
| Steering.PairOnlyNeighbours | sketch.js:212-216 | of two dots closer than a rule's reach and not at the same point, each is the other's only neighbour |
| Steering.GatherSingle | sketch.js:211-224 | with a single neighbour the tally is that neighbour's contribution with count 1 once it is scanned, and empty before |
| Steering.SteerBound | sketch.js:301-302 | the steering correction is within `maxForce`, and is the raw difference when that is already within `maxForce` |
| Steering.SeekBound | sketch.js:296-304 | the desired velocity has speed `maxSpeed` towards any other point and is zero towards the dot's own position; the seek force is within `maxForce` |
| Steering.SeekAtRest | sketch.js:296-304 | a dot at rest that is slower to turn than to move (`maxForce < maxSpeed`) seeks straight at the target: the force is the unit vector towards the target times `maxForce`, of squared length exactly `maxForce²` |
| Steering.SeparationBound | sketch.js:207-238 | separation is within `maxForce`, and zero without neighbours |
| Steering.SeparationSingle | sketch.js:207-238 | a dot at rest with one neighbour inside the separation distance is pushed straight away from it: the unit vector from the neighbour to the dot times `maxForce` |
| Steering.TwoDotsPart | sketch.js:207-238 | two dots at rest and close together are pushed directly apart, each by its own `maxForce`; with equal caps the two pushes are exact opposites |
| Steering.AlignmentBound | sketch.js:241-268 | alignment is within `maxForce` |
| Steering.AlignmentQuiet | sketch.js:265-266 | without neighbours alignment is zero |
| Steering.CohesionBound | sketch.js:271-293 | cohesion is within `maxForce` |
| Steering.CohesionQuiet | sketch.js:290-291 | without neighbours cohesion is zero |
| Steering.CalculateSeparation | sketch.js:207-238 | the accumulator loop computes exactly the separation force, which is within `maxForce` |
| Steering.CalculateAlignment | sketch.js:241-268 | the accumulator loop computes exactly the alignment force, which is within `maxForce` |
| Steering.CalculateCohesion | sketch.js:271-293 | the accumulator loop computes exactly the cohesion force, which is within `maxForce` |
| Sketch.WrapAxisLands | sketch.js:170-173 | wrapping lands on the canvas; below 0 it jumps to the far edge, beyond the edge to 0, and inside it changes nothing |
| Sketch.EyeForceBound | sketch.js:133-134 | the formation force, twice the seek, is within `2·maxForce` |
| Sketch.RepelBound | sketch.js:153-158 | inside the mouse's influence the push is never stronger than `mouseRepelStrength` |
| Sketch.MovedProperties | sketch.js:121-173 | after its update a dot moves within `maxSpeed`, lies on the canvas and keeps its caps; while forming its target is its slot, otherwise the target is unchanged |
| Sketch.MovedForce | sketch.js:122-149 | without the mouse, a forming dot's acceleration is exactly its formation force (within `2·maxForce`) and a free dot's is exactly the weighted flocking sum — never both |
| Sketch.SweepUntouched | sketch.js:118-177 | the frame loop has not changed dots it has not reached yet |
| Sketch.InPlaceUntouched | sketch.js:118-177 | for any in-place update rule, a loop over indices `0 .. k-1` has not changed the entries from `k` on |
| Sketch.InPlaceSettled | sketch.js:118-177 | for any in-place update rule, once index `j` is passed it holds the update computed against the array as it stood at its turn, and later turns leave it alone |
| Sketch.SweepNext | sketch.js:118-177 | one more turn of the frame loop: replacing dot `k` by its update on the array so far gives the array after `k + 1` turns |
| Sketch.SweepSettled | sketch.js:118-177 | once its turn has passed, dot `j` holds the update computed against the array as it stood at its turn |
| Sketch.SweepBounds | sketch.js:118-177 | after a whole frame every dot moves within its `maxSpeed` and lies on the canvas, with its caps unchanged |
| Sketch.Hatchling | sketch.js:326-335 | a spawned dot sits at the click point with zero acceleration, a velocity in `[-1, 1]²` and the configured caps |
| Sketch.Brooded | sketch.js:325-336 | the brood has one dot per loop turn, each built from its own two draws |
| Sketch.SpawnShape | sketch.js:338-341 | after a click there are at most 450 dots; without the cut the old dots stay in order followed by the brood; with it exactly the last 300 are kept in order; either way the list ends with the brood |
| Sketch.Flock.constructor | sketch.js:53-59 | a new sketch has the schedule enabled, the timer at 0, no formation in progress and the eye target at the origin, with the given dots |
| Sketch.Flock.Draw | sketch.js:88-177 | one frame: when enabled the schedule takes one `Tick` and a beginning formation draws a new eye target; when disabled the flag and timer are frozen; then every dot is updated in place as `Sweep` specifies |
| Sketch.Flock.AdvanceSchedule | sketch.js:99-115 | the timer block performs exactly one `Tick`, keeps the timer invariant, and draws a new eye target exactly when a formation begins |
| Sketch.Flock.MoveAll | sketch.js:118-177 | the frame loop leaves the dot list equal to `Sweep` of the old list |
| Sketch.Flock.MoveOne | sketch.js:118-176 | one turn of the frame loop replaces dot `i` with its update and advances the dot list from `Sweep` after `i` turns to `Sweep` after `i + 1` |
| Sketch.Flock.UpdateDot | sketch.js:119-173 | the loop body computes exactly the specified update `Moved` of dot `i` |
| Sketch.Flock.MouseClicked | sketch.js:324-342 | a click leaves the dot list equal to `Spawn` of the old list and the five hatchlings, and changes nothing else |
| Sketch.Flock.KeyPressed | sketch.js:318-320 | `'e'` flips the enabled flag and nothing else; other keys change nothing modelled |
| Sketch.ToggleTwice | sketch.js:318-320 | pressing `'e'` twice restores the schedule exactly, including a formation in progress |
| Tree.BranchCountRange | holysource/tree.js:50 | a branch below the depth limit attempts two or three children |
| Tree.GrowBounds | holysource/tree.js:45-48 | every recorded branch has depth at most 9 and length at least 2, and lies no shallower than the call that pushed it |
| Tree.KidsBounds | holysource/tree.js:49-61 | every branch pushed by a branch's children is deeper than that branch, and within the depth and length limits |
| Tree.GrowRoot | holysource/tree.js:45-48 | a call pushes something exactly when its branch passes the limits, and then its own branch comes first |
| Tree.ChildSeedIsChild | holysource/tree.js:52-59 | a child starts at its parent's end, one level deeper, turned by at most π/4 either way, with 65% to under 80% of its parent's length |
| Tree.GrowShape | holysource/tree.js:43-63 | the branches are stored parents first: every branch after the first is a child of an earlier one |
| Tree.KidsShape | holysource/tree.js:51-61 | each branch pushed by the children loop is a child of the parent or of an earlier branch of the loop |
| Tree.TreeShape | holysource/tree.js:27-38 | the trunk comes first (at `(w/2, h−40)`, angle `−π/2`, length 100, depth 0), every other branch follows its parent, and all depths are in `[0, 9]` |
| Tree.Fresh | holysource/tree.js:40 | the animation list has one entry per branch, with the same geometry and progress 0 |
| Tree.StepSafe | holysource/tree.js:85-119 | a frame keeps the current index valid for the next frame |
| Tree.StepLocal | holysource/tree.js:85-119 | a frame changes only the current branch's progress: by `+speed/length` while drawing or `−speed/length` while erasing, clamped to `[0, 1]`; the index moves exactly when the clamp applies |
| Tree.InvProgress | holysource/tree.js:86-109 | under the pass invariant every progress is in `[0, 1]` |
| Tree.StepKeepsInv | holysource/tree.js:86-109 | every frame keeps the pass invariant: drawn prefix, untouched suffix, current branch in progress |
| Tree.FinishedPass | holysource/tree.js:93-94 | a finished draw pass shows every branch whole; a finished erase pass shows none |
| Tree.SwitchKeepsInv | holysource/tree.js:95-99 | after a finished pass the delayed switch starts the other mode with its invariant in place: erase from the last branch, or draw from the first |
| Tree.InitInv | holysource/tree.js:23-40 | `initTree` leaves a draw pass at its start, which satisfies the pass invariant |
| Tree.FractalTree.constructor | holysource/tree.js:2-15 | a new tree is running, its branches are exactly the tree grown from the trunk with the draws that consumed, its animation list is their fresh copy, and a draw pass starts at index 0 |
| Tree.FractalTree.InitTree | holysource/tree.js:21-41 | the branch list is exactly the tree grown from the trunk, the animation list is its fresh copy, and the mode is draw at index 0 |
| Tree.FractalTree.NextDraw | holysource/tree.js:17-19 | each `Math.random()` call consumes the next draw of the stream, which lies in `[0, 1)`, and advances the draw count by one |
| Tree.FractalTree.CreateBranches | holysource/tree.js:43-63 | the recursive pushes append exactly the branches `Grow` specifies and consume exactly the draws it consumes |
| Tree.FractalTree.CreateChildren | holysource/tree.js:51-61 | the children loop appends exactly the branches `Kids` specifies |
| Tree.FractalTree.CreateChild | holysource/tree.js:52-60 | one loop turn draws the child's turn and shrink, then grows that child |
| Tree.FractalTree.Animate | holysource/tree.js:65-121 | a stopped tree changes nothing and schedules nothing; a running one takes exactly one `Step` and schedules the mode switch exactly when the pass is over |
| Tree.FractalTree.BeginErase | holysource/tree.js:95-98 | the delayed switch sets erase mode at the last branch |
| Tree.FractalTree.BeginDraw | holysource/tree.js:112-115 | the delayed switch sets draw mode at the first branch |
| Tree.FractalTree.Start | holysource/tree.js:123-126 | `start` sets the running flag and runs one frame |
| Tree.FractalTree.Stop | holysource/tree.js:128-130 | `stop` clears the running flag |
| Tree.StoppedFrame | holysource/tree.js:66 | after `stop`, a frame changes nothing and schedules nothing |

## Left out

- Rendering is not modelled: `drawDot`, `background`, `displayDebugInfo`, the debug text, `createCanvas`, and the tree's `clearRect` and stroke calls. This includes the line width and the erase-mode display fraction `1 − progress`. With that fraction the tree vanishes at the switch and then grows back from its last branch; only the progress values behind the display are modelled.
- `setup`'s initial population is not modelled; the initial dots are a parameter of the `Flock` constructor. Dot size and colour, the space key's colour scheme and the `'d'` debug toggle affect only drawing and are not modelled.
- `windowResized` is not modelled: canvas width and height are constants of a `Flock`.
- `eyeCenter` is never read by the sketch and is not modelled.
- Floating-point rounding is not modelled. Numbers are exact reals, and `sqrt`, `cos` and `sin` are constrained only as the introduction states; nothing is proved about their exact values.
- Random distributions are not modelled: draws are inputs in `[0, 1)`.
- `setTimeout`, `requestAnimationFrame` and the 800 ms delays are not modelled. `Animate` returns what it schedules, and the two delayed callbacks are the methods `BeginErase` and `BeginDraw`. How those callbacks interleave with `stop`/`start` is not modelled, so their invariant lemma assumes the finished pass they were scheduled from.
- Dots and animation entries are values, not shared objects. Aliasing is not modelled: no two list entries share state in the source either.
- The mouse position is the pointer while the button is held, given as an optional parameter of `Draw`; `mouseIsPressed` itself is not modelled.
- Steering.SeekBound: seeking the dot's own position gives a zero desired velocity. The force is then the clamped reverse of the dot's velocity, not zero, as in the code.
- Tree.FractalTree.CreateChildren and Tree.FractalTree.CreateChild: these split the body of `createBranches` into the method, its loop and one loop turn. The split keeps each proof small; the order of draws and pushes is unchanged.
