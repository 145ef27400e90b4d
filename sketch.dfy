/**
 * The frame loop of the dot sketch: the eye-formation timer, the in-place,
 * in-index-order update of every dot (reset acceleration, steer, integrate,
 * wrap), the click that spawns dots, and the key that switches the
 * formation schedule on and off.
 */
module Sketch {
  import opened Vectors
  import opened Formation
  import opened Steering

  /** `config`: population, speed and force caps, rule weights, mouse influence. */
  const DotCount: int := 300
  const MaxSpeed: real := 3.0
  const MaxForce: real := 0.05
  const SeparationWeight: real := 1.5
  const AlignmentWeight: real := 1.0
  const CohesionWeight: real := 1.0
  const FormationWeight: real := 2.0
  const MouseInfluenceRadius: real := 150.0
  const MouseRepelStrength: real := 3.0
  /** How many dots one click adds. */
  const Brood: int := 5

  datatype Option<T> = None | Some(value: T)

  /** What every dot of one frame sees: the formation flag, the eye target, the canvas and the pressed mouse, if any. */
  datatype Scene = Scene(forming: bool, eyeTarget: Vec, width: real, height: real, mouse: Option<Vec>)

  /** Border wrapping on one axis: below zero jumps to `size`, beyond `size` jumps to zero. */
  function WrapAxis(c: real, size: real): real {
    var below := if c < 0.0 then size else c;
    if below > size then 0.0 else below
  }

  /** On a canvas of non-negative size, wrapping lands inside it, on the exact opposite edge when it leaves. */
  lemma WrapAxisLands(c: real, size: real)
    requires 0.0 <= size
    ensures 0.0 <= WrapAxis(c, size) <= size
    ensures c < 0.0 ==> WrapAxis(c, size) == size
    ensures c > size ==> WrapAxis(c, size) == 0.0
    ensures 0.0 <= c <= size ==> WrapAxis(c, size) == c
  {}

  function Wrap(p: Vec, width: real, height: real): Vec {
    Vec(WrapAxis(p.x, width), WrapAxis(p.y, height))
  }

  /** The force a dot of a free flock receives: the weighted sum of its three rules, added in order to a reset acceleration. */
  function FlockForce(m: Math, self: Dot, index: int, dots: seq<Dot>): Vec
    requires Lawful(m)
  {
    var separation := Scale(Separation(m, self, index, dots), SeparationWeight);
    var alignment := Scale(Alignment(m, self, index, dots), AlignmentWeight);
    var cohesion := Scale(Cohesion(m, self, index, dots), CohesionWeight);
    Add(Add(Add(Zero, separation), alignment), cohesion)
  }

  /** The force a forming dot receives: twice the seek towards its slot. */
  function EyeForce(m: Math, self: Dot, target: Vec): Vec
    requires Lawful(m)
  {
    Scale(Seek(m, self, target), FormationWeight)
  }

  /** The formation force is at most twice `maxForce`. */
  lemma EyeForceBound(m: Math, self: Dot, target: Vec)
    requires Lawful(m)
    ensures WithinMag(EyeForce(m, self, target), 2.0 * self.maxForce)
  {
    var seek := Seek(m, self, target);
    SeekBound(m, self, target);
    DoubledBound(seek, self.maxForce);
    assert EyeForce(m, self, target) == Scale(seek, 2.0);
  }

  /** Whether the pressed mouse is close enough to push a dot at `position`. */
  predicate Repels(m: Math, position: Vec, mouse: Option<Vec>) {
    mouse.Some? && Dist(m, position, mouse.value) < MouseInfluenceRadius
  }

  /** The push away from the mouse, fading linearly from `MouseRepelStrength` at the pointer to zero at the edge of its influence. */
  function RepelForce(m: Math, position: Vec, mouse: Vec): Vec {
    var d := Dist(m, position, mouse);
    var strength := MapRange(d, 0.0, MouseInfluenceRadius, MouseRepelStrength, 0.0);
    Scale(Normalize(m, Sub(position, mouse)), strength)
  }

  /** Inside the mouse's influence the push is never stronger than `MouseRepelStrength`. */
  lemma RepelBound(m: Math, position: Vec, mouse: Vec)
    requires Lawful(m)
    requires Dist(m, position, mouse) < MouseInfluenceRadius
    ensures WithinMag(RepelForce(m, position, mouse), MouseRepelStrength)
  {
    var d := Dist(m, position, mouse);
    var strength := MapRange(d, 0.0, MouseInfluenceRadius, MouseRepelStrength, 0.0);
    var q := MagSq(Sub(mouse, position));
    assert 0.0 <= m.sqrt(q);
    assert 0.0 <= d;
    assert 0.0 < strength <= MouseRepelStrength;
    var dir := Normalize(m, Sub(position, mouse));
    NormalizeUnit(m, Sub(position, mouse));
    assert MagSq(dir) <= 1.0;
    ScaledMagSq(dir, strength);
    SquareMonotone(strength, MouseRepelStrength);
    MulMonotone(MagSq(dir), 1.0, strength * strength);
  }

  /** The acceleration a dot ends the frame with: the formation force or the flocking force, never both, plus the mouse push. */
  function Acceleration(m: Math, dots: seq<Dot>, i: int, sc: Scene, self: Dot): Vec
    requires Lawful(m)
    requires 0 <= i < |dots|
  {
    var force := if sc.forming then EyeForce(m, self, self.targetPosition) else FlockForce(m, self, i, dots);
    var acc := Add(Zero, force);
    if Repels(m, self.position, sc.mouse) then Add(acc, RepelForce(m, self.position, sc.mouse.value)) else acc
  }

  /**
   * The update of dot `i` of the live array `dots`: acceleration reset, its
   * slot set as target while forming, the frame's force applied, velocity
   * clamped to `maxSpeed`, position advanced and wrapped.
   */
  function Moved(m: Math, dots: seq<Dot>, i: int, sc: Scene): Dot
    requires Lawful(m)
    requires 0 <= i < |dots|
  {
    var reset := dots[i].(acceleration := Zero);
    var self := if sc.forming then reset.(targetPosition := Slot(m, sc.eyeTarget, i, |dots|)) else reset;
    var acc := Acceleration(m, dots, i, sc, self);
    var velocity := Limit(m, Add(self.velocity, acc), self.maxSpeed);
    self.(acceleration := acc, velocity := velocity, position := Wrap(Add(self.position, velocity), sc.width, sc.height))
  }

  /**
   * After its update a dot moves no faster than its `maxSpeed` and lies on the
   * canvas; while forming, its target is its slot on the eye; its caps are kept.
   */
  lemma MovedProperties(m: Math, dots: seq<Dot>, i: int, sc: Scene)
    requires Lawful(m)
    requires 0 <= i < |dots|
    requires 0.0 <= sc.width && 0.0 <= sc.height
    ensures var d := Moved(m, dots, i, sc);
      && WithinMag(d.velocity, dots[i].maxSpeed)
      && 0.0 <= d.position.x <= sc.width
      && 0.0 <= d.position.y <= sc.height
      && d.maxSpeed == dots[i].maxSpeed
      && d.maxForce == dots[i].maxForce
      && (sc.forming ==> d.targetPosition == Slot(m, sc.eyeTarget, i, |dots|))
      && (!sc.forming ==> d.targetPosition == dots[i].targetPosition)
  {
    var reset := dots[i].(acceleration := Zero);
    var self := if sc.forming then reset.(targetPosition := Slot(m, sc.eyeTarget, i, |dots|)) else reset;
    var acc := Acceleration(m, dots, i, sc, self);
    LimitBound(m, Add(self.velocity, acc), self.maxSpeed);
    var velocity := Limit(m, Add(self.velocity, acc), self.maxSpeed);
    WrapAxisLands(Add(self.position, velocity).x, sc.width);
    WrapAxisLands(Add(self.position, velocity).y, sc.height);
  }

  /**
   * Without the mouse, a forming dot's acceleration is exactly its formation
   * force, at most `2 * maxForce`, and a free dot's is exactly its weighted
   * flocking force: never both.
   */
  lemma MovedForce(m: Math, dots: seq<Dot>, i: int, sc: Scene)
    requires Lawful(m)
    requires 0 <= i < |dots|
    requires sc.mouse == None
    ensures var d := Moved(m, dots, i, sc);
      && (sc.forming ==> d.acceleration == EyeForce(m, dots[i].(acceleration := Zero, targetPosition := d.targetPosition), d.targetPosition))
      && (sc.forming ==> WithinMag(d.acceleration, 2.0 * dots[i].maxForce))
      && (!sc.forming ==> d.acceleration == FlockForce(m, dots[i].(acceleration := Zero), i, dots))
  {
    var d := Moved(m, dots, i, sc);
    if sc.forming {
      var self := dots[i].(acceleration := Zero, targetPosition := d.targetPosition);
      var force := EyeForce(m, self, d.targetPosition);
      assert d.acceleration == Add(Zero, force);
      assert Add(Zero, force) == force;
      EyeForceBound(m, self, d.targetPosition);
      assert self.maxForce == dots[i].maxForce;
    } else {
      var force := FlockForce(m, dots[i].(acceleration := Zero), i, dots);
      assert d.acceleration == Add(Zero, force);
      assert Add(Zero, force) == force;
    }
  }

  /** `update` can be applied at every index of every array of length `n`. */
  ghost predicate Applicable(update: (seq<Dot>, int) --> Dot, n: nat) {
    forall s: seq<Dot>, i: int :: |s| == n && 0 <= i < n ==> update.requires(s, i)
  }

  /**
   * An in-place pass over `xs` in index order, stopped after `k` turns: turn
   * `i` replaces element `i` by `update` of the array as it stands then, with
   * the elements before it already replaced.
   */
  ghost function InPlace(update: (seq<Dot>, int) --> Dot, xs: seq<Dot>, k: nat): (r: seq<Dot>)
    requires k <= |xs| && Applicable(update, |xs|)
    ensures |r| == |xs|
    decreases k
  {
    if k == 0 then xs
    else
      var before := InPlace(update, xs, k - 1);
      before[k - 1 := update(before, k - 1)]
  }

  /** Elements the pass has not reached are untouched. */
  lemma {:induction false} InPlaceUntouched(update: (seq<Dot>, int) --> Dot, xs: seq<Dot>, k: nat, j: int)
    requires k <= j < |xs| && Applicable(update, |xs|)
    ensures InPlace(update, xs, k)[j] == xs[j]
    decreases k
  {
    if k > 0 {
      InPlaceUntouched(update, xs, k - 1, j);
    }
  }

  /** Once its turn has passed, element `j` keeps what its turn wrote. */
  lemma {:induction false} InPlaceSettled(update: (seq<Dot>, int) --> Dot, xs: seq<Dot>, k: nat, j: int)
    requires 0 <= j < k <= |xs| && Applicable(update, |xs|)
    ensures InPlace(update, xs, k)[j] == update(InPlace(update, xs, j), j)
    decreases k
  {
    if k > j + 1 {
      InPlaceSettled(update, xs, k - 1, j);
    }
  }

  /** The frame loop's turn: dot `i` updated against the array as it stands. */
  ghost function Turn(m: Math, sc: Scene): (seq<Dot>, int) --> Dot {
    (dots: seq<Dot>, i: int) requires Lawful(m) && 0 <= i < |dots| => Moved(m, dots, i, sc)
  }

  /**
   * The array after the frame loop has updated dots `0 .. k-1` in place, in
   * index order: each dot is updated against the array as it stands at its
   * turn, with the dots before it already moved.
   */
  ghost function Sweep(m: Math, dots: seq<Dot>, k: nat, sc: Scene): (r: seq<Dot>)
    requires Lawful(m)
    requires k <= |dots|
    ensures |r| == |dots|
  {
    InPlace(Turn(m, sc), dots, k)
  }

  lemma SweepStep(m: Math, dots: seq<Dot>, k: nat, sc: Scene)
    requires Lawful(m)
    requires k < |dots|
    ensures Sweep(m, dots, k + 1, sc) == Sweep(m, dots, k, sc)[k := Moved(m, Sweep(m, dots, k, sc), k, sc)]
  {}

  /** One more turn of the frame loop: the array so far with dot `k` replaced by its update. */
  lemma SweepNext(m: Math, dots: seq<Dot>, k: nat, sc: Scene, now: seq<Dot>, dot: Dot)
    requires Lawful(m)
    requires k < |dots|
    requires now == Sweep(m, dots, k, sc) && dot == Moved(m, now, k, sc)
    ensures now[k := dot] == Sweep(m, dots, k + 1, sc)
  {
    SweepStep(m, dots, k, sc);
  }

  /** The frame loop has not reached dot `j` yet after `k <= j` turns. */
  lemma SweepUntouched(m: Math, dots: seq<Dot>, k: nat, sc: Scene, j: int)
    requires Lawful(m)
    requires k <= j < |dots|
    ensures Sweep(m, dots, k, sc)[j] == dots[j]
  {
    InPlaceUntouched(Turn(m, sc), dots, k, j);
  }

  /** Once its turn has passed, dot `j` keeps the update it received, computed against the array after `j` turns. */
  lemma SweepSettled(m: Math, dots: seq<Dot>, k: nat, sc: Scene, j: int)
    requires Lawful(m)
    requires 0 <= j < k <= |dots|
    ensures Sweep(m, dots, k, sc)[j] == Moved(m, Sweep(m, dots, j, sc), j, sc)
  {
    InPlaceSettled(Turn(m, sc), dots, k, j);
  }

  /** After a whole frame every dot is within its speed cap and on the canvas, with its caps unchanged. */
  lemma SweepBounds(m: Math, dots: seq<Dot>, sc: Scene, j: int)
    requires Lawful(m)
    requires 0.0 <= sc.width && 0.0 <= sc.height
    requires 0 <= j < |dots|
    ensures var d := Sweep(m, dots, |dots|, sc)[j];
      && d.maxSpeed == dots[j].maxSpeed
      && d.maxForce == dots[j].maxForce
      && WithinMag(d.velocity, dots[j].maxSpeed)
      && 0.0 <= d.position.x <= sc.width
      && 0.0 <= d.position.y <= sc.height
  {
    var before := Sweep(m, dots, j, sc);
    SweepSettled(m, dots, |dots|, sc, j);
    SweepUntouched(m, dots, j, sc, j);
    MovedProperties(m, before, j, sc);
  }

  /** A dot born from a click at `(mx, my)` with velocity draws `ux`, `uy` of `Math.random()`. */
  function Hatchling(mx: real, my: real, ux: real, uy: real): (d: Dot)
    requires 0.0 <= ux < 1.0 && 0.0 <= uy < 1.0
    ensures d.position == Vec(mx, my) && d.acceleration == Zero
    ensures -1.0 <= d.velocity.x <= 1.0 && -1.0 <= d.velocity.y <= 1.0
    ensures d.maxSpeed == MaxSpeed && d.maxForce == MaxForce
  {
    Dot(Vec(mx, my), Vec(Uniform(ux, -1.0, 1.0), Uniform(uy, -1.0, 1.0)), Zero, MaxSpeed, MaxForce, Zero)
  }

  ghost predicate Draws(draws: seq<real>) {
    forall k :: 0 <= k < |draws| ==> 0.0 <= draws[k] < 1.0
  }

  /** The first `k` dots of a click's brood, two draws per dot. */
  function Brooded(mx: real, my: real, draws: seq<real>, k: nat): (r: seq<Dot>)
    requires Draws(draws) && 2 * k <= |draws|
    ensures |r| == k
    ensures forall j :: 0 <= j < k ==> r[j] == Hatchling(mx, my, draws[2 * j], draws[2 * j + 1])
    decreases k
  {
    if k == 0 then [] else Brooded(mx, my, draws, k - 1) + [Hatchling(mx, my, draws[2 * k - 2], draws[2 * k - 1])]
  }

  /** The population after a click: the brood appended, then cut down to the last `DotCount` dots if it exceeds 1.5 times that. */
  function Spawn(dots: seq<Dot>, brood: seq<Dot>): seq<Dot> {
    var all := dots + brood;
    if (|all| as real) > (DotCount as real) * 1.5 then all[|all| - DotCount..] else all
  }

  /**
   * A click never leaves more than 1.5 times `DotCount` dots; without the cut
   * the old dots stay in place, in order, followed by the brood; with it
   * exactly the last `DotCount` dots are kept in order, which end with the brood.
   */
  lemma SpawnShape(dots: seq<Dot>, brood: seq<Dot>)
    requires |brood| == Brood
    ensures |Spawn(dots, brood)| <= 450
    ensures |dots| + Brood <= 450 ==> Spawn(dots, brood) == dots + brood
    ensures |dots| + Brood > 450 ==>
      && |Spawn(dots, brood)| == DotCount
      && Spawn(dots, brood) == (dots + brood)[|dots| + Brood - DotCount..]
    ensures Spawn(dots, brood)[|Spawn(dots, brood)| - Brood..] == brood
  {
    var all := dots + brood;
    assert (|all| as real) > (DotCount as real) * 1.5 <==> |all| > 450;
    assert all[|all| - Brood..] == brood;
  }

  /** The mutable state of the sketch: the flock, the formation schedule and the eye target. */
  class Flock {
    var dots: seq<Dot>
    /** `config.eyeFormation.enabled` */
    var enabled: bool
    /** `isFormingEye` */
    var forming: bool
    /** `eyeFormationTimer` */
    var timer: int
    var eyeTarget: Vec
    const width: real
    const height: real
    const math: Math

    ghost predicate Valid()
      reads this
    {
      && Inv(Phase(forming, timer))
      && 0.0 <= width && 0.0 <= height
      && Lawful(math)
    }

    /** The sketch after `setup`, with its initial population given. */
    constructor(math: Math, width: real, height: real, initial: seq<Dot>)
      requires Lawful(math)
      requires 0.0 <= width && 0.0 <= height
      ensures Valid()
      ensures this.math == math && this.width == width && this.height == height
      ensures dots == initial && enabled && !forming && timer == 0 && eyeTarget == Zero
    {
      this.math := math;
      this.width := width;
      this.height := height;
      dots := initial;
      enabled := true;
      forming := false;
      timer := 0;
      eyeTarget := Zero;
    }

    /**
     * One frame: advance the formation schedule when it is enabled (drawing a
     * new eye target from `ux`, `uy` when a formation begins), then update
     * every dot in place, in index order. `mouse` is the pointer while the
     * button is held.
     */
    method Draw(mouse: Option<Vec>, ux: real, uy: real)
      requires Valid()
      requires 0.0 <= ux < 1.0 && 0.0 <= uy < 1.0
      modifies this
      ensures Valid()
      ensures enabled == old(enabled)
      ensures old(enabled) ==> Phase(forming, timer) == Tick(old(Phase(forming, timer)))
      ensures !old(enabled) ==> forming == old(forming) && timer == old(timer)
      ensures eyeTarget == if old(enabled) && Begins(old(Phase(forming, timer))) then EyeTarget(width, height, ux, uy) else old(eyeTarget)
      ensures dots == Sweep(math, old(dots), |old(dots)|, Scene(forming, eyeTarget, width, height, mouse))
    {
      if enabled {
        AdvanceSchedule(ux, uy);
      }
      var sc := Scene(forming, eyeTarget, width, height, mouse);
      MoveAll(sc);
    }

    /** The timer block of a frame while the schedule is enabled: one `Tick`, and a new eye target when a formation begins. */
    method AdvanceSchedule(ux: real, uy: real)
      requires Valid()
      requires 0.0 <= ux < 1.0 && 0.0 <= uy < 1.0
      modifies this`forming, this`timer, this`eyeTarget
      ensures Valid()
      ensures Phase(forming, timer) == Tick(old(Phase(forming, timer)))
      ensures eyeTarget == if Begins(old(Phase(forming, timer))) then EyeTarget(width, height, ux, uy) else old(eyeTarget)
    {
      timer := timer + 1;
      if !forming && timer >= Interval {
        forming := true;
        timer := 0;
        eyeTarget := Vec(Uniform(ux, width * 0.3, width * 0.7), Uniform(uy, height * 0.3, height * 0.7));
      }
      if forming && timer >= Duration {
        forming := false;
        timer := 0;
      }
      TickKeepsInv(old(Phase(forming, timer)));
    }

    /** The frame loop: every dot updated in place, in index order, against the array as it stands at its turn. */
    method MoveAll(sc: Scene)
      requires Lawful(math)
      requires sc.width == width && sc.height == height
      modifies this`dots
      ensures dots == Sweep(math, old(dots), |old(dots)|, sc)
    {
      ghost var start := dots;
      var i := 0;
      while i < |dots|
        invariant 0 <= i <= |dots| == |start|
        invariant dots == Sweep(math, start, i, sc)
      {
        MoveOne(i, sc, start);
        i := i + 1;
      }
    }

    /** One turn of the frame loop: dot `i` replaced by its update. */
    method MoveOne(i: nat, sc: Scene, ghost start: seq<Dot>)
      requires Lawful(math)
      requires sc.width == width && sc.height == height
      requires i < |dots| == |start| && dots == Sweep(math, start, i, sc)
      modifies this`dots
      ensures |dots| == |start| && dots == Sweep(math, start, i + 1, sc)
    {
      var dot := UpdateDot(i, sc);
      SweepNext(math, start, i, sc, dots, dot);
      dots := dots[i := dot];
    }

    /** The body of the frame loop for dot `i`. */
    method UpdateDot(i: int, sc: Scene) returns (dot: Dot)
      requires Lawful(math)
      requires 0 <= i < |dots|
      requires sc.width == width && sc.height == height
      ensures dot == Moved(math, dots, i, sc)
    {
      dot := dots[i];
      dot := dot.(acceleration := Zero);
      var acceleration := Zero;
      ghost var reset := dot;
      if sc.forming {
        var angle := MapRange(i as real, 0.0, |dots| as real, 0.0, TwoPi);
        var radius := if (i as real) < (|dots| as real) * 0.8 then Radius else PupilRadius;
        var targetX := sc.eyeTarget.x + math.cos(angle) * radius;
        var targetY := sc.eyeTarget.y + math.sin(angle) * radius;
        dot := dot.(targetPosition := Vec(targetX, targetY));
        assert dot == reset.(targetPosition := Slot(math, sc.eyeTarget, i, |dots|));
        var eyeForce := Seek(math, dot, dot.targetPosition);
        eyeForce := Scale(eyeForce, FormationWeight);
        acceleration := Add(acceleration, eyeForce);
        assert acceleration == Add(Zero, EyeForce(math, dot, dot.targetPosition));
      } else {
        var separation := CalculateSeparation(math, dot, i, dots);
        var alignment := CalculateAlignment(math, dot, i, dots);
        var cohesion := CalculateCohesion(math, dot, i, dots);
        separation := Scale(separation, SeparationWeight);
        alignment := Scale(alignment, AlignmentWeight);
        cohesion := Scale(cohesion, CohesionWeight);
        acceleration := Add(acceleration, separation);
        acceleration := Add(acceleration, alignment);
        acceleration := Add(acceleration, cohesion);
        assert acceleration == Add(Zero, FlockForce(math, dot, i, dots));
      }
      ghost var self := dot;
      assert self == if sc.forming then reset.(targetPosition := Slot(math, sc.eyeTarget, i, |dots|)) else reset;
      if sc.mouse.Some? {
        var distToMouse := Dist(math, dot.position, sc.mouse.value);
        if distToMouse < MouseInfluenceRadius {
          var repelDir := Sub(dot.position, sc.mouse.value);
          var strength := MapRange(distToMouse, 0.0, MouseInfluenceRadius, MouseRepelStrength, 0.0);
          repelDir := Scale(Normalize(math, repelDir), strength);
          acceleration := Add(acceleration, repelDir);
        }
      }
      assert acceleration == Acceleration(math, dots, i, sc, self);
      var velocity := Add(dot.velocity, acceleration);
      velocity := Limit(math, velocity, dot.maxSpeed);
      var position := Add(dot.position, velocity);
      var x := position.x;
      var y := position.y;
      if x < 0.0 { x := width; }
      if x > width { x := 0.0; }
      if y < 0.0 { y := height; }
      if y > height { y := 0.0; }
      assert Vec(x, y) == Wrap(position, width, height);
      dot := dot.(acceleration := acceleration, velocity := velocity, position := Vec(x, y));
    }

    /** A click at `(mx, my)`: five dots are appended there, then the population is cut if it has grown too large. */
    method MouseClicked(mx: real, my: real, draws: seq<real>)
      requires Draws(draws) && |draws| == 2 * Brood
      modifies this
      ensures dots == Spawn(old(dots), Brooded(mx, my, draws, Brood))
      ensures |old(dots)| <= 450 ==> |dots| <= 450
      ensures unchanged(this`enabled, this`forming, this`timer, this`eyeTarget)
    {
      var i := 0;
      while i < Brood
        invariant 0 <= i <= Brood
        invariant dots == old(dots) + Brooded(mx, my, draws, i)
        invariant unchanged(this`enabled, this`forming, this`timer, this`eyeTarget)
      {
        dots := dots + [Hatchling(mx, my, draws[2 * i], draws[2 * i + 1])];
        i := i + 1;
      }
      if (|dots| as real) > (DotCount as real) * 1.5 {
        dots := dots[|dots| - DotCount..];
      }
      SpawnShape(old(dots), Brooded(mx, my, draws, Brood));
    }

    /** The `'e'` key switches the formation schedule on or off; no other key changes anything modelled here. */
    method KeyPressed(key: char)
      modifies this
      ensures enabled == (if key == 'e' then !old(enabled) else old(enabled))
      ensures unchanged(this`dots, this`forming, this`timer, this`eyeTarget)
    {
      if key == 'e' {
        enabled := !enabled;
      }
    }
  }

  /** Pressing `'e'` twice restores the schedule exactly, including a formation in progress. */
  method ToggleTwice(flock: Flock)
    requires flock.Valid()
    modifies flock
    ensures flock.Valid()
    ensures flock.enabled == old(flock.enabled) && flock.forming == old(flock.forming) && flock.timer == old(flock.timer)
    ensures flock.eyeTarget == old(flock.eyeTarget) && flock.dots == old(flock.dots)
  {
    flock.KeyPressed('e');
    flock.KeyPressed('e');
  }
}
