/**
 * The flocking rules of the dot sketch: separation, alignment and cohesion,
 * each gathered over an all-pairs neighbour filter, and `seek`, the
 * "desired velocity minus current velocity, clamped to maxForce" rule they
 * share.
 *
 * Each rule is an accumulator loop over the live dot array in the sketch;
 * here each loop is a method proved equal to a specification function, and
 * the properties of the rules are proved about those functions.
 */
module Steering {
  import opened Vectors

  /** `config.flockingRules`: the reach of each rule. */
  const SeparationDistance: real := 25.0
  const AlignmentDistance: real := 50.0
  const CohesionDistance: real := 50.0

  /** A dot of the flock; its drawing size and colour are not modelled. */
  datatype Dot = Dot(
    position: Vec,
    velocity: Vec,
    acceleration: Vec,
    maxSpeed: real,
    maxForce: real,
    targetPosition: Vec)

  datatype Rule = Separate | Align | Cohere

  function Reach(rule: Rule): real {
    match rule
    case Separate => SeparationDistance
    case Align => AlignmentDistance
    case Cohere => CohesionDistance
  }

  /**
   * The neighbour filter the three rules share: another index than the dot's
   * own, at a distance that is positive and strictly below the rule's reach.
   */
  predicate IsNeighbour(m: Math, rule: Rule, self: Dot, index: int, dots: seq<Dot>, j: int)
    requires 0 <= j < |dots|
  {
    && j != index
    && Dist(m, self.position, dots[j].position) > 0.0
    && Dist(m, self.position, dots[j].position) < Reach(rule)
  }

  /** The filter compares squared distances exactly as it compares distances. */
  lemma NeighbourBySquares(m: Math, rule: Rule, self: Dot, index: int, dots: seq<Dot>, j: int)
    requires Lawful(m)
    requires 0 <= j < |dots|
    ensures IsNeighbour(m, rule, self, index, dots, j) <==>
      && j != index
      && 0.0 < MagSq(Sub(dots[j].position, self.position))
      && MagSq(Sub(dots[j].position, self.position)) < Reach(rule) * Reach(rule)
  {
    MagBelow(m, Sub(dots[j].position, self.position), Reach(rule));
  }

  /** A dot never counts itself, and never counts a dot at its own position. */
  lemma NeighbourExcludes(m: Math, rule: Rule, self: Dot, index: int, dots: seq<Dot>, j: int)
    requires Lawful(m)
    requires 0 <= j < |dots|
    requires j == index || dots[j].position == self.position
    ensures !IsNeighbour(m, rule, self, index, dots, j)
  {
    NeighbourBySquares(m, rule, self, index, dots, j);
    assert Sub(dots[j].position, self.position) == Zero || j == index;
  }

  /** What a neighbour adds to a rule's sum: its scaled-away offset, its velocity, or its position. */
  function Contribution(m: Math, rule: Rule, self: Dot, other: Dot): Vec
    requires rule == Separate ==> Dist(m, self.position, other.position) > 0.0
  {
    match rule
    case Separate => Div(Normalize(m, Sub(self.position, other.position)), Dist(m, self.position, other.position))
    case Align => other.velocity
    case Cohere => other.position
  }

  /** The `sum`/`count` pair of an accumulator loop. */
  datatype Tally = Tally(sum: Vec, count: nat)

  /** The tally after the loop has visited indices `0 .. k-1`. */
  function Gather(m: Math, rule: Rule, self: Dot, index: int, dots: seq<Dot>, k: nat): Tally
    requires k <= |dots|
    decreases k
  {
    if k == 0 then Tally(Zero, 0)
    else
      var t := Gather(m, rule, self, index, dots, k - 1);
      if IsNeighbour(m, rule, self, index, dots, k - 1) then
        Tally(Add(t.sum, Contribution(m, rule, self, dots[k - 1])), t.count + 1)
      else t
  }

  ghost predicate NoNeighbours(m: Math, rule: Rule, self: Dot, index: int, dots: seq<Dot>, k: nat)
    requires k <= |dots|
  {
    forall j :: 0 <= j < k ==> !IsNeighbour(m, rule, self, index, dots, j)
  }

  /**
   * The count is the number of neighbours seen: at most the number of indices
   * visited, zero exactly when no neighbour was seen, and then the sum is zero.
   */
  lemma {:induction false} GatherCount(m: Math, rule: Rule, self: Dot, index: int, dots: seq<Dot>, k: nat)
    requires k <= |dots|
    ensures Gather(m, rule, self, index, dots, k).count <= k
    ensures Gather(m, rule, self, index, dots, k).count == 0 <==> NoNeighbours(m, rule, self, index, dots, k)
    ensures Gather(m, rule, self, index, dots, k).count == 0 ==> Gather(m, rule, self, index, dots, k).sum == Zero
    decreases k
  {
    if k > 0 {
      GatherCount(m, rule, self, index, dots, k - 1);
    }
  }

  /** The rule all steering shares: desired velocity minus current velocity, clamped to `maxForce`. */
  function Steer(m: Math, self: Dot, desired: Vec): Vec
    requires Lawful(m)
  {
    Limit(m, Sub(desired, self.velocity), self.maxForce)
  }

  /** The clamped force never exceeds `maxForce`, and a change already within it is applied as it is. */
  lemma SteerBound(m: Math, self: Dot, desired: Vec)
    requires Lawful(m)
    ensures WithinMag(Steer(m, self, desired), self.maxForce)
    ensures WithinMag(Sub(desired, self.velocity), self.maxForce) ==>
      Steer(m, self, desired) == Sub(desired, self.velocity)
  {
    LimitBound(m, Sub(desired, self.velocity), self.maxForce);
  }

  /** `seek`: steer towards `target` at full speed. */
  function Seek(m: Math, self: Dot, target: Vec): Vec
    requires Lawful(m)
  {
    Steer(m, self, Desired(m, self, target))
  }

  /** The velocity `seek` asks for: towards `target`, at the dot's maximum speed. */
  function Desired(m: Math, self: Dot, target: Vec): Vec {
    Scale(Normalize(m, Sub(target, self.position)), self.maxSpeed)
  }

  /**
   * The desired velocity of `seek` has the dot's full speed unless the target
   * is the dot's own position, where it is zero and the steering force is the
   * clamped reverse of the velocity; the result never exceeds `maxForce`.
   */
  lemma SeekBound(m: Math, self: Dot, target: Vec)
    requires Lawful(m)
    ensures target != self.position ==> MagSq(Desired(m, self, target)) == self.maxSpeed * self.maxSpeed
    ensures target == self.position ==> Desired(m, self, target) == Zero
    ensures WithinMag(Seek(m, self, target), self.maxForce)
  {
    var offset := Sub(target, self.position);
    NormalizeUnit(m, offset);
    ScaledMagSq(Normalize(m, offset), self.maxSpeed);
    if target == self.position {
      assert offset == Zero;
    } else {
      assert offset != Zero;
    }
    SteerBound(m, self, Desired(m, self, target));
  }

  /**
   * A dot at rest seeking another point pulls straight towards it with
   * exactly `maxForce`, when `maxForce` is below `maxSpeed`.
   */
  lemma SeekAtRest(m: Math, self: Dot, target: Vec)
    requires Lawful(m)
    requires self.velocity == Zero && target != self.position
    requires 0.0 <= self.maxForce < self.maxSpeed
    ensures Seek(m, self, target) == Scale(Normalize(m, Sub(target, self.position)), self.maxForce)
    ensures MagSq(Seek(m, self, target)) == self.maxForce * self.maxForce
  {
    var n := Normalize(m, Sub(target, self.position));
    assert Sub(target, self.position) != Zero;
    NormalizeUnit(m, Sub(target, self.position));
    assert Sub(Desired(m, self, target), self.velocity) == Scale(n, self.maxSpeed);
    LimitScaledUnit(m, n, self.maxSpeed, self.maxForce);
  }

  /** `calculateSeparation`: steer away from crowding neighbours, weighted by inverse distance. */
  function Separation(m: Math, self: Dot, index: int, dots: seq<Dot>): Vec
    requires Lawful(m)
  {
    var t := Gather(m, Separate, self, index, dots, |dots|);
    var steer := if t.count > 0 then Div(t.sum, t.count as real) else t.sum;
    if Mag(m, steer) > 0.0 then Steer(m, self, Scale(Normalize(m, steer), self.maxSpeed))
    else steer
  }

  /** Separation never exceeds `maxForce`, and is zero when there is no neighbour within reach. */
  lemma SeparationBound(m: Math, self: Dot, index: int, dots: seq<Dot>)
    requires Lawful(m)
    ensures WithinMag(Separation(m, self, index, dots), self.maxForce)
    ensures NoNeighbours(m, Separate, self, index, dots, |dots|) ==> Separation(m, self, index, dots) == Zero
  {
    var t := Gather(m, Separate, self, index, dots, |dots|);
    GatherCount(m, Separate, self, index, dots, |dots|);
    var steer := if t.count > 0 then Div(t.sum, t.count as real) else t.sum;
    MagBelow(m, steer, 0.0);
    SquareNonNegative(self.maxForce);
    SteerBound(m, self, Scale(Normalize(m, steer), self.maxSpeed));
  }

  /** Index `j` is the one and only neighbour of the dot for `rule`. */
  predicate OnlyNeighbour(m: Math, rule: Rule, self: Dot, index: int, dots: seq<Dot>, j: int)
    requires 0 <= j < |dots|
  {
    && IsNeighbour(m, rule, self, index, dots, j)
    && forall k :: 0 <= k < |dots| && k != j ==> !IsNeighbour(m, rule, self, index, dots, k)
  }

  /** Two dots alone within reach of each other are each other's only neighbour. */
  lemma PairOnlyNeighbours(m: Math, rule: Rule, a: Dot, b: Dot)
    requires Lawful(m)
    requires 0.0 < MagSq(Sub(b.position, a.position)) < Reach(rule) * Reach(rule)
    ensures OnlyNeighbour(m, rule, a, 0, [a, b], 1)
    ensures OnlyNeighbour(m, rule, b, 1, [a, b], 0)
  {
    var d := Sub(b.position, a.position);
    assert Sub(a.position, b.position) == Scale(d, -1.0);
    ScaledMagSq(d, -1.0);
    NeighbourBySquares(m, rule, a, 0, [a, b], 1);
    NeighbourBySquares(m, rule, b, 1, [a, b], 0);
  }

  /** With a single neighbour the tally is that neighbour's contribution, counted once. */
  lemma {:induction false} GatherSingle(m: Math, rule: Rule, self: Dot, index: int, dots: seq<Dot>, j: int, k: nat)
    requires 0 <= j < |dots| && k <= |dots|
    requires OnlyNeighbour(m, rule, self, index, dots, j)
    ensures Gather(m, rule, self, index, dots, k) ==
      if j < k then Tally(Add(Zero, Contribution(m, rule, self, dots[j])), 1) else Tally(Zero, 0)
    decreases k
  {
    if k > 0 {
      GatherSingle(m, rule, self, index, dots, j, k - 1);
    }
  }

  /**
   * With a single neighbour, separation steers towards full speed straight
   * away from it, whatever the distance.
   */
  lemma SeparationSingleSteer(m: Math, self: Dot, index: int, dots: seq<Dot>, j: int)
    requires Lawful(m)
    requires 0 <= j < |dots|
    requires OnlyNeighbour(m, Separate, self, index, dots, j)
    ensures MagSq(Normalize(m, Sub(self.position, dots[j].position))) == 1.0
    ensures Separation(m, self, index, dots) ==
      Steer(m, self, Scale(Normalize(m, Sub(self.position, dots[j].position)), self.maxSpeed))
  {
    var away := Sub(self.position, dots[j].position);
    var dist := Dist(m, self.position, dots[j].position);
    var n := Normalize(m, away);
    GatherSingle(m, Separate, self, index, dots, j, |dots|);
    var t := Gather(m, Separate, self, index, dots, |dots|);
    assert t.count == 1 && t.sum == Add(Zero, Div(n, dist));
    var steer := Div(t.sum, 1.0);
    assert steer == Div(n, dist);
    NeighbourBySquares(m, Separate, self, index, dots, j);
    assert away != Zero;
    NormalizeUnit(m, away);
    NormalizeShrunkUnit(m, n, dist);
    assert Normalize(m, steer) == n;
    assert Mag(m, steer) > 0.0;
  }

  /**
   * Two dots too close: a dot at rest with exactly one neighbour within the
   * separation distance is pushed straight away from it with exactly
   * `maxForce`, whatever the distance.
   */
  lemma SeparationSingle(m: Math, self: Dot, index: int, dots: seq<Dot>, j: int)
    requires Lawful(m)
    requires 0 <= j < |dots|
    requires OnlyNeighbour(m, Separate, self, index, dots, j)
    requires self.velocity == Zero
    requires 0.0 <= self.maxForce < self.maxSpeed
    ensures Separation(m, self, index, dots) == Scale(Normalize(m, Sub(self.position, dots[j].position)), self.maxForce)
    ensures MagSq(Separation(m, self, index, dots)) == self.maxForce * self.maxForce
  {
    var n := Normalize(m, Sub(self.position, dots[j].position));
    SeparationSingleSteer(m, self, index, dots, j);
    assert Sub(Scale(n, self.maxSpeed), self.velocity) == Scale(n, self.maxSpeed);
    LimitScaledUnit(m, n, self.maxSpeed, self.maxForce);
  }

  /**
   * Two dots at rest, alone and closer than the separation distance: each is
   * pushed straight away from the other with exactly its `maxForce`, so with
   * equal caps the two pushes are opposite.
   */
  lemma TwoDotsPart(m: Math, a: Dot, b: Dot)
    requires Lawful(m)
    requires a.velocity == Zero && b.velocity == Zero
    requires 0.0 < MagSq(Sub(b.position, a.position)) < SeparationDistance * SeparationDistance
    requires 0.0 <= a.maxForce < a.maxSpeed && 0.0 <= b.maxForce < b.maxSpeed
    ensures Separation(m, a, 0, [a, b]) == Scale(Normalize(m, Sub(a.position, b.position)), a.maxForce)
    ensures Separation(m, b, 1, [a, b]) == Scale(Normalize(m, Sub(b.position, a.position)), b.maxForce)
    ensures a.maxForce == b.maxForce ==> Separation(m, b, 1, [a, b]) == Scale(Separation(m, a, 0, [a, b]), -1.0)
  {
    PairOnlyNeighbours(m, Separate, a, b);
    SeparationSingle(m, a, 0, [a, b], 1);
    SeparationSingle(m, b, 1, [a, b], 0);
    var away := Sub(a.position, b.position);
    assert Sub(b.position, a.position) == Scale(away, -1.0);
    NormalizeOpposite(m, away);
    ScaleSwap(Normalize(m, away), -1.0, a.maxForce);
  }

  /** `calculateAlignment`: steer towards the neighbours' average heading at full speed. */
  function Alignment(m: Math, self: Dot, index: int, dots: seq<Dot>): Vec
    requires Lawful(m)
  {
    var t := Gather(m, Align, self, index, dots, |dots|);
    if t.count > 0 then Steer(m, self, Scale(Normalize(m, Div(t.sum, t.count as real)), self.maxSpeed))
    else Zero
  }

  /** Alignment never exceeds `maxForce`. */
  lemma AlignmentBound(m: Math, self: Dot, index: int, dots: seq<Dot>)
    requires Lawful(m)
    ensures WithinMag(Alignment(m, self, index, dots), self.maxForce)
  {
    var t := Gather(m, Align, self, index, dots, |dots|);
    if t.count > 0 {
      SteerBound(m, self, Scale(Normalize(m, Div(t.sum, t.count as real)), self.maxSpeed));
    } else {
      SquareNonNegative(self.maxForce);
    }
  }

  /** Alignment is zero when no neighbour is within reach. */
  lemma AlignmentQuiet(m: Math, self: Dot, index: int, dots: seq<Dot>)
    requires Lawful(m)
    requires NoNeighbours(m, Align, self, index, dots, |dots|)
    ensures Alignment(m, self, index, dots) == Zero
  {
    GatherCount(m, Align, self, index, dots, |dots|);
  }

  /** `calculateCohesion`: seek the neighbours' average position. */
  function Cohesion(m: Math, self: Dot, index: int, dots: seq<Dot>): Vec
    requires Lawful(m)
  {
    var t := Gather(m, Cohere, self, index, dots, |dots|);
    if t.count > 0 then Seek(m, self, Div(t.sum, t.count as real)) else Zero
  }

  /** Cohesion never exceeds `maxForce`. */
  lemma CohesionBound(m: Math, self: Dot, index: int, dots: seq<Dot>)
    requires Lawful(m)
    ensures WithinMag(Cohesion(m, self, index, dots), self.maxForce)
  {
    var t := Gather(m, Cohere, self, index, dots, |dots|);
    if t.count > 0 {
      SeekBound(m, self, Div(t.sum, t.count as real));
    } else {
      SquareNonNegative(self.maxForce);
    }
  }

  /** Cohesion is zero when no neighbour is within reach. */
  lemma CohesionQuiet(m: Math, self: Dot, index: int, dots: seq<Dot>)
    requires Lawful(m)
    requires NoNeighbours(m, Cohere, self, index, dots, |dots|)
    ensures Cohesion(m, self, index, dots) == Zero
  {
    GatherCount(m, Cohere, self, index, dots, |dots|);
  }

  /** The separation loop of the sketch. */
  method CalculateSeparation(m: Math, self: Dot, index: int, dots: seq<Dot>) returns (steer: Vec)
    requires Lawful(m)
    ensures steer == Separation(m, self, index, dots)
    ensures WithinMag(steer, self.maxForce)
  {
    steer := Zero;
    var count := 0;
    var i := 0;
    while i < |dots|
      invariant 0 <= i <= |dots|
      invariant Gather(m, Separate, self, index, dots, i) == Tally(steer, count)
    {
      if i != index {
        var other := dots[i];
        var d := Dist(m, self.position, other.position);
        if d > 0.0 && d < SeparationDistance {
          var diff := Sub(self.position, other.position);
          diff := Normalize(m, diff);
          diff := Div(diff, d);
          steer := Add(steer, diff);
          count := count + 1;
        }
      }
      i := i + 1;
    }
    if count > 0 {
      steer := Div(steer, count as real);
    }
    if Mag(m, steer) > 0.0 {
      steer := Normalize(m, steer);
      steer := Scale(steer, self.maxSpeed);
      steer := Sub(steer, self.velocity);
      steer := Limit(m, steer, self.maxForce);
    }
    SeparationBound(m, self, index, dots);
  }

  /** The alignment loop of the sketch. */
  method CalculateAlignment(m: Math, self: Dot, index: int, dots: seq<Dot>) returns (steer: Vec)
    requires Lawful(m)
    ensures steer == Alignment(m, self, index, dots)
    ensures WithinMag(steer, self.maxForce)
  {
    var sum := Zero;
    var count := 0;
    var i := 0;
    while i < |dots|
      invariant 0 <= i <= |dots|
      invariant Gather(m, Align, self, index, dots, i) == Tally(sum, count)
    {
      if i != index {
        var other := dots[i];
        var d := Dist(m, self.position, other.position);
        if d > 0.0 && d < AlignmentDistance {
          sum := Add(sum, other.velocity);
          count := count + 1;
        }
      }
      i := i + 1;
    }
    if count > 0 {
      sum := Div(sum, count as real);
      sum := Normalize(m, sum);
      sum := Scale(sum, self.maxSpeed);
      steer := Sub(sum, self.velocity);
      steer := Limit(m, steer, self.maxForce);
    } else {
      steer := Zero;
    }
    AlignmentBound(m, self, index, dots);
  }

  /** The cohesion loop of the sketch. */
  method CalculateCohesion(m: Math, self: Dot, index: int, dots: seq<Dot>) returns (steer: Vec)
    requires Lawful(m)
    ensures steer == Cohesion(m, self, index, dots)
    ensures WithinMag(steer, self.maxForce)
  {
    var sum := Zero;
    var count := 0;
    var i := 0;
    while i < |dots|
      invariant 0 <= i <= |dots|
      invariant Gather(m, Cohere, self, index, dots, i) == Tally(sum, count)
    {
      if i != index {
        var other := dots[i];
        var d := Dist(m, self.position, other.position);
        if d > 0.0 && d < CohesionDistance {
          sum := Add(sum, other.position);
          count := count + 1;
        }
      }
      i := i + 1;
    }
    if count > 0 {
      sum := Div(sum, count as real);
      steer := Seek(m, self, sum);
    } else {
      steer := Zero;
    }
    CohesionBound(m, self, index, dots);
  }
}
