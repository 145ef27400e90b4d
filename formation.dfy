/**
 * The eye-formation schedule of the dot sketch and the target layout the
 * dots steer to while an eye is being formed.
 *
 * The schedule is a two-phase machine over a frame timer: the flock moves
 * freely for `Interval` frames, then forms an eye for `Duration` frames,
 * then starts over. The layout sends dot `i` of `n` to a point on one of
 * two concentric rings around the eye target, at an angle proportional to
 * its index.
 */
module Formation {
  import opened Vectors

  /** `config.eyeFormation`: frames between formations, frames a formation lasts, ring radii. */
  const Interval: int := 300
  const Duration: int := 180
  const Radius: real := 100.0
  const PupilRadius: real := 30.0

  /** `isFormingEye` and `eyeFormationTimer`. */
  datatype Phase = Phase(forming: bool, timer: int)

  const Start: Phase := Phase(false, 0)

  /** Whether the frame that follows `p` begins a new formation (and so draws a new eye target). */
  predicate Begins(p: Phase) {
    !p.forming && p.timer + 1 >= Interval
  }

  /**
   * One frame of the schedule while it is enabled: the timer counts up; a
   * free-flocking phase that has reached `Interval` switches to forming and
   * restarts the timer; a forming phase that has reached `Duration` switches
   * back and restarts the timer.
   */
  function Tick(p: Phase): (r: Phase)
    ensures !p.forming && p.timer + 1 < Interval ==> r == Phase(false, p.timer + 1)
    ensures Begins(p) ==> r == Phase(true, 0)
    ensures p.forming && p.timer + 1 < Duration ==> r == Phase(true, p.timer + 1)
    ensures p.forming && p.timer + 1 >= Duration ==> r == Start
  {
    var counted := Phase(p.forming, p.timer + 1);
    var afterStart := if !counted.forming && counted.timer >= Interval then Phase(true, 0) else counted;
    if afterStart.forming && afterStart.timer >= Duration then Phase(false, 0) else afterStart
  }

  /** The timer never exceeds the length of the phase it is timing. */
  ghost predicate Inv(p: Phase) {
    && 0 <= p.timer
    && (p.forming ==> p.timer < Duration)
    && (!p.forming ==> p.timer < Interval)
  }

  lemma TickKeepsInv(p: Phase)
    requires Inv(p)
    ensures Inv(Tick(p))
    ensures Tick(p).forming != p.forming ==> Tick(p).timer == 0
  {}

  /** The schedule after `k` enabled frames. */
  function Run(p: Phase, k: nat): Phase
    decreases k
  {
    if k == 0 then p else Run(Tick(p), k - 1)
  }

  lemma {:induction false} RunAdds(p: Phase, a: nat, b: nat)
    ensures Run(p, a + b) == Run(Run(p, a), b)
    decreases a
  {
    if a > 0 {
      RunAdds(Tick(p), a - 1, b);
    }
  }

  lemma {:induction false} RunKeepsInv(p: Phase, k: nat)
    requires Inv(p)
    ensures Inv(Run(p, k))
    decreases k
  {
    if k > 0 {
      TickKeepsInv(p);
      RunKeepsInv(Tick(p), k - 1);
    }
  }

  /** While flocking, each frame before the `Interval`-th only advances the timer. */
  lemma {:induction false} FlockingCounts(t: int, k: nat)
    requires 0 <= t && t + k < Interval
    ensures Run(Phase(false, t), k) == Phase(false, t + k)
    decreases k
  {
    if k > 0 {
      FlockingCounts(t + 1, k - 1);
    }
  }

  /** While forming, each frame before the `Duration`-th only advances the timer. */
  lemma {:induction false} FormingCounts(t: int, k: nat)
    requires 0 <= t && t + k < Duration
    ensures Run(Phase(true, t), k) == Phase(true, t + k)
    decreases k
  {
    if k > 0 {
      FormingCounts(t + 1, k - 1);
    }
  }

  /**
   * From the initial state, the `Interval`-th frame starts a formation with the
   * timer reset, and `Duration` frames later the flock is free again with the
   * timer reset: the schedule repeats every `Interval + Duration` frames.
   */
  lemma Schedule()
    ensures forall k: nat :: k < Interval ==> Run(Start, k) == Phase(false, k)
    ensures Run(Start, Interval) == Phase(true, 0)
    ensures forall k: nat :: k < Duration ==> Run(Start, Interval + k) == Phase(true, k)
    ensures Run(Start, Interval + Duration) == Start
  {
    forall k: nat | k < Interval
      ensures Run(Start, k) == Phase(false, k)
    {
      FlockingCounts(0, k);
    }
    FlockingCounts(0, Interval - 1);
    RunAdds(Start, Interval - 1, 1);
    forall k: nat | k < Duration
      ensures Run(Start, Interval + k) == Phase(true, k)
    {
      RunAdds(Start, Interval, k);
      FormingCounts(0, k);
    }
    RunAdds(Start, Interval, Duration - 1);
    FormingCounts(0, Duration - 1);
    RunAdds(Start, Interval + Duration - 1, 1);
  }

  /** The eye target `(random(0.3w, 0.7w), random(0.3h, 0.7h))` for draws `ux`, `uy` of `Math.random()`. */
  function EyeTarget(width: real, height: real, ux: real, uy: real): (r: Vec)
    requires 0.0 <= width && 0.0 <= height
    requires 0.0 <= ux < 1.0 && 0.0 <= uy < 1.0
    ensures 0.3 * width <= r.x <= 0.7 * width
    ensures 0.3 * height <= r.y <= 0.7 * height
  {
    Vec(Uniform(ux, width * 0.3, width * 0.7), Uniform(uy, height * 0.3, height * 0.7))
  }

  /** The ring of dot `i` among `n`: the outer ring for the first 80% of the indices, the pupil ring otherwise. */
  function RingRadius(i: int, n: int): real {
    if (i as real) < (n as real) * 0.8 then Radius else PupilRadius
  }

  /** The number of outer-ring dots, `ceil(0.8 * n)`. */
  function OuterCount(n: nat): nat {
    (4 * n + 4) / 5
  }

  /** Dot `i` goes to the outer ring exactly when `5i < 4n`, that is, when `i` is below `OuterCount(n)`. */
  lemma RingByIndex(i: nat, n: nat)
    ensures RingRadius(i, n) == Radius <==> 5 * i < 4 * n
    ensures 5 * i < 4 * n <==> i < OuterCount(n)
    ensures OuterCount(n) <= n
  {
    assert (i as real) < (n as real) * 0.8 <==> 5.0 * (i as real) < 4.0 * (n as real);
    assert 5.0 * (i as real) < 4.0 * (n as real) <==> ((5 * i) as real) < ((4 * n) as real);
  }

  /** How many of the indices `0 .. k-1` are sent to the outer ring when there are `n` dots. */
  function OuterAmong(k: nat, n: nat): nat {
    if k == 0 then 0 else OuterAmong(k - 1, n) + (if RingRadius(k - 1, n) == Radius then 1 else 0)
  }

  lemma {:induction false} OuterAmongPrefix(k: nat, n: nat)
    ensures OuterAmong(k, n) == if k < OuterCount(n) then k else OuterCount(n)
    decreases k
  {
    if k > 0 {
      OuterAmongPrefix(k - 1, n);
      RingByIndex(k - 1, n);
    }
  }

  /**
   * Exactly `ceil(0.8 * n)` of the `n` dots go to the outer ring, and the
   * pupil ring gets the remaining `floor(n / 5)`.
   */
  lemma OuterRingSize(n: nat)
    ensures OuterAmong(n, n) == OuterCount(n)
    ensures n - OuterAmong(n, n) == n / 5
  {
    OuterAmongPrefix(n, n);
    RingByIndex(0, n);
    var q, r := n / 5, n % 5;
    assert n == 5 * q + r && 0 <= r < 5;
    assert 4 * n + 4 == 5 * (4 * q) + (4 * r + 4);
    assert OuterCount(n) == 4 * q + r;
  }

  /** p5 `map(i, 0, n, 0, TWO_PI)`: the angle of dot `i`'s slot. */
  function SlotAngle(i: int, n: int): real
    requires 0 < n
  {
    MapRange(i as real, 0.0, n as real, 0.0, TwoPi)
  }

  /** The slot angles start at zero, stay below a full turn and are evenly spaced by `TwoPi / n`. */
  lemma SlotAngles(i: nat, n: nat)
    requires i < n
    ensures 0.0 <= SlotAngle(i, n) < TwoPi
    ensures SlotAngle(0, n) == 0.0
    ensures SlotAngle(i + 1, n) - SlotAngle(i, n) == TwoPi / (n as real)
  {
    var f := (i as real) / (n as real);
    assert 0.0 <= f < 1.0;
    MulMonotone(0.0, f, TwoPi);
    MulStrict(f, 1.0, TwoPi);
    calc {
      SlotAngle(i + 1, n) - SlotAngle(i, n);
    ==
      ((i + 1) as real) / (n as real) * TwoPi - (i as real) / (n as real) * TwoPi;
    == { DivSpacing(i as real, n as real); }
      (1.0 / (n as real)) * TwoPi;
    ==
      TwoPi / (n as real);
    }
  }

  lemma DivSpacing(a: real, b: real)
    requires 0.0 < b
    ensures (a + 1.0) / b * TwoPi - a / b * TwoPi == (1.0 / b) * TwoPi
  {
    assert (a + 1.0) / b == a / b + 1.0 / b;
  }

  /** The point of dot `i`'s slot on its ring around `center`. */
  function Slot(m: Math, center: Vec, i: int, n: int): Vec
    requires 0 < n
  {
    var angle := SlotAngle(i, n);
    var radius := RingRadius(i, n);
    Vec(center.x + m.cos(angle) * radius, center.y + m.sin(angle) * radius)
  }

  /** Every slot lies on its ring: at distance `RingRadius(i, n)` from the eye target. */
  lemma SlotOnRing(m: Math, center: Vec, i: int, n: int)
    requires Lawful(m)
    requires 0 < n
    ensures MagSq(Sub(Slot(m, center, i, n), center)) == RingRadius(i, n) * RingRadius(i, n)
  {
    var angle := SlotAngle(i, n);
    var radius := RingRadius(i, n);
    var unit := Vec(m.cos(angle), m.sin(angle));
    assert Sub(Slot(m, center, i, n), center) == Scale(unit, radius);
    ScaledMagSq(unit, radius);
    assert MagSq(unit) == 1.0;
  }
}
