/**
 * The fractal tree of the portfolio page: a random tree of line segments
 * grown from a trunk, then drawn branch by branch and erased branch by
 * branch in an endless loop.
 *
 * `Math.random()` is an infinite stream `rand` of draws in `[0, 1)`; the
 * tree keeps a counter `draws` of how many it has consumed, so a run of the
 * generator is a function of the stream and of the counter.
 */
module Tree {
  import opened Vectors

  /** The constructor's settings: pixels per frame, deepest level, trunk length. */
  const Speed: real := 6.0
  const MaxDepth: int := 9
  const TrunkLength: real := 100.0
  /** Segments shorter than this are not recorded. */
  const MinLength: real := 2.0

  /** A recorded branch: start point, heading, length, depth and end point. */
  datatype Branch = Branch(x: real, y: real, angle: real, length: real, depth: int, endX: real, endY: real)

  /** The argument of one `createBranches` call. */
  datatype Seed = Seed(x: real, y: real, angle: real, length: real, depth: int)

  /** Every draw of the stream is in `[0, 1)`, as `Math.random()` promises. */
  ghost predicate Unit(rand: nat -> real) {
    forall n: nat :: 0.0 <= rand(n) < 1.0
  }

  /** The trunk: from the bottom centre of the canvas, 40 pixels up, pointing straight up. */
  function Trunk(width: real, height: real): Seed {
    Seed(width / 2.0, height - 40.0, -Pi / 2.0, TrunkLength, 0)
  }

  /** Whether a call records its branch: not deeper than `MaxDepth` and not shorter than `MinLength`. */
  predicate Records(s: Seed) {
    s.depth <= MaxDepth && s.length >= MinLength
  }

  /** The record pushed for seed `s`, its end point one `length` along its heading. */
  function Record(m: Math, s: Seed): Branch {
    Branch(s.x, s.y, s.angle, s.length, s.depth, s.x + m.cos(s.angle) * s.length, s.y + m.sin(s.angle) * s.length)
  }

  /** `Math.floor(random(2, 4))` for draw `u`. */
  function BranchCount(u: real): int
    requires 0.0 <= u < 1.0
  {
    Uniform(u, 2.0, 4.0).Floor
  }

  /** A branch below `MaxDepth` attempts two or three children. */
  lemma BranchCountRange(u: real)
    requires 0.0 <= u < 1.0
    ensures 2 <= BranchCount(u) <= 3
    ensures BranchCount(u) == 2 <==> u < 0.5
  {
    var r := Uniform(u, 2.0, 4.0);
    assert 2.0 <= r < 4.0;
    assert r == u * 2.0 + 2.0;
  }

  /** The seed of a child of `parent`: from its end, turned by `random(-PI/4, PI/4)`, shortened by `random(0.65, 0.8)`. */
  function ChildSeed(parent: Branch, ua: real, ul: real): Seed
    requires 0.0 <= ua < 1.0 && 0.0 <= ul < 1.0
  {
    Seed(parent.endX, parent.endY, parent.angle + Uniform(ua, -Pi / 4.0, Pi / 4.0), parent.length * Uniform(ul, 0.65, 0.8), parent.depth + 1)
  }

  /**
   * The branches one `createBranches(s)` call pushes, in push order, when the
   * stream is at position `n`, and the stream position it leaves behind.
   */
  function Grow(m: Math, rand: nat -> real, s: Seed, n: nat): (seq<Branch>, nat)
    requires Unit(rand)
    decreases MaxDepth - s.depth, 1, 0
  {
    if !Records(s) then ([], n)
    else if s.depth < MaxDepth then
      var kids := Kids(m, rand, Record(m, s), BranchCount(rand(n)), 0, n + 1);
      ([Record(m, s)] + kids.0, kids.1)
    else ([Record(m, s)], n)
  }

  /** The branches pushed by children `i .. count-1` of `parent`, each drawing its angle and length before growing. */
  function Kids(m: Math, rand: nat -> real, parent: Branch, count: int, i: int, n: nat): (seq<Branch>, nat)
    requires Unit(rand)
    requires parent.depth < MaxDepth
    decreases MaxDepth - parent.depth, 0, count - i
  {
    if i >= count then ([], n)
    else
      var grown := Grow(m, rand, ChildSeed(parent, rand(n), rand(n + 1)), n + 2);
      var rest := Kids(m, rand, parent, count, i + 1, grown.1);
      (grown.0 + rest.0, rest.1)
  }

  /** Every recorded branch lies within the depth and length limits, at or below the depth of the call that pushed it. */
  lemma {:induction false} GrowBounds(m: Math, rand: nat -> real, s: Seed, n: nat)
    requires Unit(rand)
    ensures forall b <- Grow(m, rand, s, n).0 :: s.depth <= b.depth <= MaxDepth && b.length >= MinLength
    ensures n <= Grow(m, rand, s, n).1
    decreases MaxDepth - s.depth, 1, 0
  {
    if Records(s) && s.depth < MaxDepth {
      KidsBounds(m, rand, Record(m, s), BranchCount(rand(n)), 0, n + 1);
    }
  }

  lemma {:induction false} KidsBounds(m: Math, rand: nat -> real, parent: Branch, count: int, i: int, n: nat)
    requires Unit(rand)
    requires parent.depth < MaxDepth
    ensures forall b <- Kids(m, rand, parent, count, i, n).0 :: parent.depth < b.depth <= MaxDepth && b.length >= MinLength
    ensures n <= Kids(m, rand, parent, count, i, n).1
    decreases MaxDepth - parent.depth, 0, count - i
  {
    if i < count {
      var child := ChildSeed(parent, rand(n), rand(n + 1));
      GrowBounds(m, rand, child, n + 2);
      KidsBounds(m, rand, parent, count, i + 1, Grow(m, rand, child, n + 2).1);
    }
  }

  lemma GrowUnfold(m: Math, rand: nat -> real, s: Seed, n: nat)
    requires Unit(rand)
    requires Records(s) && s.depth < MaxDepth
    ensures var kids := Kids(m, rand, Record(m, s), BranchCount(rand(n)), 0, n + 1);
      Grow(m, rand, s, n) == ([Record(m, s)] + kids.0, kids.1)
  {}

  lemma KidsUnfold(m: Math, rand: nat -> real, parent: Branch, count: int, i: int, n: nat)
    requires Unit(rand)
    requires parent.depth < MaxDepth && i < count
    ensures var grown := Grow(m, rand, ChildSeed(parent, rand(n), rand(n + 1)), n + 2);
      var rest := Kids(m, rand, parent, count, i + 1, grown.1);
      Kids(m, rand, parent, count, i, n) == (grown.0 + rest.0, rest.1)
  {}

  /** One turn of the children loop keeps "pushed so far, then still to push" equal to all the children's branches. */
  lemma KidsLoop(m: Math, rand: nat -> real, parent: Branch, count: int, i: int, n: nat, start: nat,
                 built: seq<Branch>, before: seq<Branch>, after: seq<Branch>, next: nat)
    requires Unit(rand)
    requires parent.depth < MaxDepth && i < count
    requires built + Kids(m, rand, parent, count, 0, start).0 == before + Kids(m, rand, parent, count, i, n).0
    requires Kids(m, rand, parent, count, 0, start).1 == Kids(m, rand, parent, count, i, n).1
    requires var grown := Grow(m, rand, ChildSeed(parent, rand(n), rand(n + 1)), n + 2);
      after == before + grown.0 && next == grown.1
    ensures built + Kids(m, rand, parent, count, 0, start).0 == after + Kids(m, rand, parent, count, i + 1, next).0
    ensures Kids(m, rand, parent, count, 0, start).1 == Kids(m, rand, parent, count, i + 1, next).1
  {
    KidsUnfold(m, rand, parent, count, i, n);
  }

  /** A call pushes something exactly when its branch is recorded, and then its own branch comes first. */
  lemma GrowRoot(m: Math, rand: nat -> real, s: Seed, n: nat)
    requires Unit(rand)
    ensures |Grow(m, rand, s, n).0| > 0 <==> Records(s)
    ensures Records(s) ==> Grow(m, rand, s, n).0[0] == Record(m, s)
  {}

  /**
   * `c` is a child of `p`: it starts at `p`'s end, one level deeper, turned by
   * at most a quarter of a half-turn, between 65% and 80% of `p`'s length.
   */
  predicate ChildOf(c: Branch, p: Branch) {
    && c.x == p.endX && c.y == p.endY
    && c.depth == p.depth + 1
    && p.angle - Pi / 4.0 <= c.angle < p.angle + Pi / 4.0
    && Shrunk(c.length, p.length)
  }

  /** `child` is between 65% (inclusive) and 80% (exclusive) of `parent`. */
  predicate Shrunk(child: real, parent: real) {
    0.65 * parent <= child < 0.8 * parent
  }

  /** Parents come first: every branch after the first is a child of an earlier one. */
  ghost predicate ParentsFirst(bs: seq<Branch>) {
    forall k :: 0 < k < |bs| ==> exists p :: 0 <= p < k && ChildOf(bs[k], bs[p])
  }

  /** Every branch is a child of `parent` or of an earlier branch of `bs`. */
  ghost predicate Descends(bs: seq<Branch>, parent: Branch) {
    forall k :: 0 <= k < |bs| ==> ChildOf(bs[k], parent) || exists p :: 0 <= p < k && ChildOf(bs[k], bs[p])
  }

  /** The branch a child seed records is a child of its parent. */
  lemma ChildSeedIsChild(m: Math, parent: Branch, ua: real, ul: real)
    requires 0.0 <= ua < 1.0 && 0.0 <= ul < 1.0
    requires parent.length > 0.0
    ensures ChildOf(Record(m, ChildSeed(parent, ua, ul)), parent)
  {
    var f := Uniform(ul, 0.65, 0.8);
    ShrinkFactor(parent.length, f);
    assert Record(m, ChildSeed(parent, ua, ul)).length == parent.length * f;
  }

  lemma ShrinkFactor(length: real, f: real)
    requires length > 0.0 && 0.65 <= f < 0.8
    ensures Shrunk(length * f, length)
  {
    MulMonotone(0.65, f, length);
    MulStrict(f, 0.8, length);
    assert f * length == length * f;
  }

  /** A root followed by its descendants lists every parent before its children. */
  lemma ParentsFirstCons(root: Branch, kids: seq<Branch>)
    requires Descends(kids, root)
    ensures ParentsFirst([root] + kids)
  {
    var bs := [root] + kids;
    assert bs[0] == root;
    forall k | 0 < k < |bs|
      ensures exists p :: 0 <= p < k && ChildOf(bs[k], bs[p])
    {
      assert bs[k] == kids[k - 1];
      assert ChildOf(kids[k - 1], root) || exists p :: 0 <= p < k - 1 && ChildOf(kids[k - 1], kids[p]);
      if ChildOf(kids[k - 1], root) {
        assert ChildOf(bs[k], bs[0]);
      } else {
        var p :| 0 <= p < k - 1 && ChildOf(kids[k - 1], kids[p]);
        assert ChildOf(bs[k], bs[p + 1]);
      }
    }
  }

  /** A subtree rooted at a child of `parent`, followed by more descendants of `parent`, descends from `parent`. */
  lemma DescendsAppend(grown: seq<Branch>, rest: seq<Branch>, parent: Branch)
    requires |grown| > 0 ==> ChildOf(grown[0], parent)
    requires ParentsFirst(grown) && Descends(rest, parent)
    ensures Descends(grown + rest, parent)
  {
    var bs := grown + rest;
    forall k | 0 <= k < |bs|
      ensures ChildOf(bs[k], parent) || exists p :: 0 <= p < k && ChildOf(bs[k], bs[p])
    {
      if k < |grown| {
        DescendsAppendHead(grown, rest, parent, k);
      } else {
        DescendsAppendTail(grown, rest, parent, k);
      }
    }
  }

  lemma DescendsAppendHead(grown: seq<Branch>, rest: seq<Branch>, parent: Branch, k: int)
    requires 0 <= k < |grown|
    requires ChildOf(grown[0], parent) && ParentsFirst(grown)
    ensures ChildOf((grown + rest)[k], parent) || exists p :: 0 <= p < k && ChildOf((grown + rest)[k], (grown + rest)[p])
  {
    var bs := grown + rest;
    assert bs[k] == grown[k];
    if k > 0 {
      var p :| 0 <= p < k && ChildOf(grown[k], grown[p]);
      assert bs[p] == grown[p];
    }
  }

  lemma DescendsAppendTail(grown: seq<Branch>, rest: seq<Branch>, parent: Branch, k: int)
    requires |grown| <= k < |grown| + |rest|
    requires Descends(rest, parent)
    ensures ChildOf((grown + rest)[k], parent) || exists p :: 0 <= p < k && ChildOf((grown + rest)[k], (grown + rest)[p])
  {
    var bs := grown + rest;
    var j := k - |grown|;
    assert bs[k] == rest[j];
    if !ChildOf(rest[j], parent) {
      var p :| 0 <= p < j && ChildOf(rest[j], rest[p]);
      assert bs[p + |grown|] == rest[p];
    }
  }

  /** The branches of one call are stored parents first: each after its parent. */
  lemma {:induction false} GrowShape(m: Math, rand: nat -> real, s: Seed, n: nat)
    requires Unit(rand)
    ensures ParentsFirst(Grow(m, rand, s, n).0)
    decreases MaxDepth - s.depth, 1, 0
  {
    if Records(s) && s.depth < MaxDepth {
      var root := Record(m, s);
      var kids := Kids(m, rand, root, BranchCount(rand(n)), 0, n + 1);
      KidsShape(m, rand, root, BranchCount(rand(n)), 0, n + 1);
      ParentsFirstCons(root, kids.0);
    }
  }

  lemma {:induction false} KidsShape(m: Math, rand: nat -> real, parent: Branch, count: int, i: int, n: nat)
    requires Unit(rand)
    requires parent.depth < MaxDepth && parent.length > 0.0
    ensures Descends(Kids(m, rand, parent, count, i, n).0, parent)
    decreases MaxDepth - parent.depth, 0, count - i
  {
    if i < count {
      var child := ChildSeed(parent, rand(n), rand(n + 1));
      var grown := Grow(m, rand, child, n + 2);
      GrowShape(m, rand, child, n + 2);
      GrowRoot(m, rand, child, n + 2);
      ChildSeedIsChild(m, parent, rand(n), rand(n + 1));
      KidsShape(m, rand, parent, count, i + 1, grown.1);
      DescendsAppend(grown.0, Kids(m, rand, parent, count, i + 1, grown.1).0, parent);
    }
  }

  /** The whole tree: the trunk comes first, and every other branch follows its parent. */
  lemma TreeShape(m: Math, rand: nat -> real, width: real, height: real, n: nat)
    requires Unit(rand)
    ensures var bs := Grow(m, rand, Trunk(width, height), n).0;
      && |bs| > 0
      && bs[0].x == width / 2.0 && bs[0].y == height - 40.0
      && bs[0].angle == -Pi / 2.0 && bs[0].length == TrunkLength && bs[0].depth == 0
      && ParentsFirst(bs)
      && forall b <- bs :: 0 <= b.depth <= MaxDepth && b.length >= MinLength
  {
    GrowRoot(m, rand, Trunk(width, height), n);
    GrowShape(m, rand, Trunk(width, height), n);
    GrowBounds(m, rand, Trunk(width, height), n);
  }

  /** `'draw'` and `'erase'`. */
  datatype Mode = Drawing | Erasing

  /** An entry of `animationBranches`: a branch and how much of it is shown. */
  datatype Animated = Animated(branch: Branch, progress: real)

  /** The animation state: the mode, `currentBranchIndex` and `animationBranches`. */
  datatype Animation = Animation(mode: Mode, current: int, anim: seq<Animated>)

  /** What `animate` leaves scheduled: nothing, the next frame, or the mode switch 800 ms later. */
  datatype Next = Stopped | NextFrame | SwitchLater

  /** `animationBranches` as `initTree` builds it: every branch, nothing shown. */
  function Fresh(bs: seq<Branch>): (r: seq<Animated>)
    ensures |r| == |bs|
    ensures forall k :: 0 <= k < |bs| ==> r[k].branch == bs[k] && r[k].progress == 0.0
  {
    seq(|bs|, k requires 0 <= k < |bs| => Animated(bs[k], 0.0))
  }

  /** What one frame needs to run without reading past the list: a valid index in the active direction, positive lengths. */
  ghost predicate Safe(a: Animation) {
    && (forall k :: 0 <= k < |a.anim| ==> a.anim[k].branch.length > 0.0)
    && (a.mode == Drawing ==> 0 <= a.current)
    && (a.mode == Erasing ==> a.current < |a.anim|)
  }

  /** Whether the pass of the current mode is over. */
  predicate Finished(a: Animation) {
    if a.mode == Drawing then a.current >= |a.anim| else a.current < 0
  }

  /**
   * The state update of one `animate` frame: in draw mode the current branch
   * grows by `Speed / length` and, once complete, is clamped to 1 and the
   * index moves up; in erase mode it shrinks and, once gone, is clamped to 0
   * and the index moves down. A finished pass changes nothing.
   */
  function Step(a: Animation): Animation
    requires Safe(a)
  {
    if Finished(a) then a
    else
      var b := a.anim[a.current];
      if a.mode == Drawing then
        var p := b.progress + Speed / b.branch.length;
        if p >= 1.0 then a.(current := a.current + 1, anim := a.anim[a.current := b.(progress := 1.0)])
        else a.(anim := a.anim[a.current := b.(progress := p)])
      else
        var p := b.progress - Speed / b.branch.length;
        if p <= 0.0 then a.(current := a.current - 1, anim := a.anim[a.current := b.(progress := 0.0)])
        else a.(anim := a.anim[a.current := b.(progress := p)])
  }

  /** The delayed switch after a finished draw pass: erase, from the last branch down. */
  function ToErase(a: Animation): Animation {
    a.(mode := Erasing, current := |a.anim| - 1)
  }

  /** The delayed switch after a finished erase pass: draw, from the first branch up. */
  function ToDraw(a: Animation): Animation {
    a.(mode := Drawing, current := 0)
  }

  function Clamp(p: real): real {
    if p < 0.0 then 0.0 else if p > 1.0 then 1.0 else p
  }

  /** A frame never makes the next one read past the list. */
  lemma StepSafe(a: Animation)
    requires Safe(a)
    ensures Safe(Step(a)) && Step(a).mode == a.mode && |Step(a).anim| == |a.anim|
  {
    var r := Step(a);
    if !Finished(a) {
      forall k | 0 <= k < |r.anim|
        ensures r.anim[k].branch.length > 0.0
      {
        assert r.anim[k].branch == a.anim[k].branch;
      }
    }
  }

  lemma StepSize(length: real)
    requires length > 0.0
    ensures Speed / length > 0.0
  {}

  /**
   * A frame changes at most the current branch, and only its progress: by
   * `+Speed / length` while drawing and `-Speed / length` while erasing,
   * clamped to `[0, 1]`; the index moves by one exactly when the clamp
   * bites. The branch list, its geometry and the mode stay.
   */
  lemma StepLocal(a: Animation)
    requires Inv(a)
    ensures var r := Step(a);
      && r.mode == a.mode
      && |r.anim| == |a.anim|
      && Safe(r)
      && (forall k :: 0 <= k < |a.anim| ==> r.anim[k].branch == a.anim[k].branch)
      && (forall k :: 0 <= k < |a.anim| && k != a.current ==> r.anim[k] == a.anim[k])
      && (Finished(a) ==> r == a)
      && (!Finished(a) && a.mode == Drawing ==>
            var c := a.anim[a.current];
            && r.anim[a.current].progress == Clamp(c.progress + Speed / c.branch.length)
            && r.current == (if c.progress + Speed / c.branch.length >= 1.0 then a.current + 1 else a.current))
      && (!Finished(a) && a.mode == Erasing ==>
            var c := a.anim[a.current];
            && r.anim[a.current].progress == Clamp(c.progress - Speed / c.branch.length)
            && r.current == (if c.progress - Speed / c.branch.length <= 0.0 then a.current - 1 else a.current))
  {
    if !Finished(a) {
      var c := a.anim[a.current];
      StepSize(c.branch.length);
    }
  }

  /**
   * The pass invariant. Drawing: the index is in `[0, |anim|]`, the branches
   * before it are complete, those after it are not started, and the current one
   * is partly drawn. Erasing mirrors it: the index is in `[-1, |anim| - 1]`, the
   * branches before it are still complete, those after it are gone, and the
   * current one is partly erased.
   */
  ghost predicate Inv(a: Animation) {
    && Safe(a)
    && (a.mode == Drawing ==> a.current <= |a.anim|)
    && (a.mode == Erasing ==> -1 <= a.current)
    && (forall k :: 0 <= k < |a.anim| && k < a.current ==> a.anim[k].progress == 1.0)
    && (forall k :: 0 <= k < |a.anim| && a.current < k ==> a.anim[k].progress == 0.0)
    && (a.mode == Drawing && a.current < |a.anim| ==> 0.0 <= a.anim[a.current].progress < 1.0)
    && (a.mode == Erasing && 0 <= a.current ==> 0.0 < a.anim[a.current].progress <= 1.0)
  }

  /** Under the invariant every progress is in `[0, 1]`. */
  lemma InvProgress(a: Animation)
    requires Inv(a)
    ensures forall k :: 0 <= k < |a.anim| ==> 0.0 <= a.anim[k].progress <= 1.0
  {
    forall k | 0 <= k < |a.anim|
      ensures 0.0 <= a.anim[k].progress <= 1.0
    {
      if k != a.current {
        assert k < a.current || a.current < k;
      }
    }
  }

  /** Every frame keeps the invariant. */
  lemma StepKeepsInv(a: Animation)
    requires Inv(a)
    ensures Inv(Step(a))
  {
    StepLocal(a);
    if !Finished(a) {
      var c := a.anim[a.current];
      StepSize(c.branch.length);
    }
  }

  /** A finished draw pass shows every branch whole; a finished erase pass shows none. */
  lemma FinishedPass(a: Animation)
    requires Inv(a) && Finished(a)
    ensures a.mode == Drawing ==> a.current == |a.anim| && forall k :: 0 <= k < |a.anim| ==> a.anim[k].progress == 1.0
    ensures a.mode == Erasing ==> a.current == -1 && forall k :: 0 <= k < |a.anim| ==> a.anim[k].progress == 0.0
  {}

  /** Switching after a finished pass starts a pass of the other mode with the invariant in place. */
  lemma SwitchKeepsInv(a: Animation)
    requires Inv(a) && Finished(a)
    ensures a.mode == Drawing ==> Inv(ToErase(a)) && ToErase(a).current == |a.anim| - 1
    ensures a.mode == Erasing ==> Inv(ToDraw(a)) && ToDraw(a).current == 0
  {
    FinishedPass(a);
  }

  /** `initTree` leaves a draw pass at its start, which satisfies the invariant. */
  lemma InitInv(bs: seq<Branch>)
    requires forall b <- bs :: b.length >= MinLength
    ensures Inv(Animation(Drawing, 0, Fresh(bs)))
  {
    var a := Animation(Drawing, 0, Fresh(bs));
    forall k | 0 <= k < |a.anim|
      ensures a.anim[k].branch.length > 0.0
    {
      assert a.anim[k].branch in bs;
    }
  }

  /** The tree animator: the branch list, the animation state and the running flag. */
  class FractalTree {
    const math: Math
    /** The `Math.random()` stream. */
    const rand: nat -> real
    const width: real
    const height: real
    /** `isDrawing` */
    var isDrawing: bool
    var mode: Mode
    /** `currentBranchIndex` */
    var current: int
    var branches: seq<Branch>
    /** `animationBranches` */
    var anim: seq<Animated>
    /** How many draws of `rand` have been consumed. */
    var draws: nat

    ghost predicate Valid()
      reads this
    {
      Unit(rand) && Safe(State())
    }

    function State(): Animation
      reads this
    {
      Animation(mode, current, anim)
    }

    /** A new tree: running, with its branches grown and a draw pass about to start. */
    constructor(math: Math, rand: nat -> real, width: real, height: real)
      requires Unit(rand)
      ensures Valid() && Inv(State())
      ensures isDrawing && this.math == math && this.rand == rand && this.width == width && this.height == height
      ensures branches == Grow(math, rand, Trunk(width, height), 0).0
      ensures draws == Grow(math, rand, Trunk(width, height), 0).1
      ensures anim == Fresh(branches) && mode == Drawing && current == 0
    {
      this.math := math;
      this.rand := rand;
      this.width := width;
      this.height := height;
      isDrawing := true;
      branches := [];
      anim := [];
      mode := Drawing;
      current := 0;
      draws := 0;
      new;
      InitTree();
    }

    /** The next `Math.random()` draw. */
    method NextDraw() returns (u: real)
      requires Unit(rand)
      modifies this`draws
      ensures u == rand(old(draws)) && 0.0 <= u < 1.0 && draws == old(draws) + 1
    {
      u := rand(draws);
      draws := draws + 1;
    }

    /** Grows a fresh tree from the trunk and resets the animation to the start of a draw pass. */
    method InitTree()
      requires Unit(rand)
      modifies this`branches, this`anim, this`mode, this`current, this`draws
      ensures branches == Grow(math, rand, Trunk(width, height), old(draws)).0
      ensures draws == Grow(math, rand, Trunk(width, height), old(draws)).1
      ensures anim == Fresh(branches) && mode == Drawing && current == 0
      ensures Valid() && Inv(State())
    {
      branches := [];
      anim := [];
      mode := Drawing;
      current := 0;
      CreateBranches(Trunk(width, height));
      anim := Fresh(branches);
      GrowBounds(math, rand, Trunk(width, height), old(draws));
      InitInv(branches);
    }

    /** `createBranches(s)`: pushes the branch of `s` when it is recorded, then grows its children in turn. */
    method CreateBranches(s: Seed)
      requires Unit(rand)
      modifies this`branches, this`draws
      ensures branches == old(branches) + Grow(math, rand, s, old(draws)).0
      ensures draws == Grow(math, rand, s, old(draws)).1
      decreases MaxDepth - s.depth, 2
    {
      if s.depth > MaxDepth || s.length < MinLength {
        return;
      }
      var rec := Record(math, s);
      branches := branches + [rec];
      if s.depth < MaxDepth {
        var u := NextDraw();
        var branchCount := BranchCount(u);
        GrowUnfold(math, rand, s, old(draws));
        ghost var kids := Kids(math, rand, rec, branchCount, 0, old(draws) + 1).0;
        assert old(branches) + ([rec] + kids) == branches + kids;
        CreateChildren(rec, branchCount);
      }
    }

    /** The loop of `createBranches`: grows children `0 .. count-1` of `parent` in turn. */
    method CreateChildren(parent: Branch, count: int)
      requires Unit(rand) && parent.depth < MaxDepth
      modifies this`branches, this`draws
      ensures branches == old(branches) + Kids(math, rand, parent, count, 0, old(draws)).0
      ensures draws == Kids(math, rand, parent, count, 0, old(draws)).1
      decreases MaxDepth - parent.depth, 1
    {
      ghost var built := branches;
      ghost var start := draws;
      var i := 0;
      while i < count
        invariant 0 <= i
        invariant built + Kids(math, rand, parent, count, 0, start).0 == branches + Kids(math, rand, parent, count, i, draws).0
        invariant Kids(math, rand, parent, count, 0, start).1 == Kids(math, rand, parent, count, i, draws).1
      {
        ghost var before := branches;
        ghost var n := draws;
        CreateChild(parent);
        KidsLoop(math, rand, parent, count, i, n, start, built, before, branches, draws);
        i := i + 1;
      }
    }

    /** One turn of the loop of `createBranches`: draws the child's turn and shrink, then grows it. */
    method CreateChild(parent: Branch)
      requires Unit(rand) && parent.depth < MaxDepth
      modifies this`branches, this`draws
      ensures var grown := Grow(math, rand, ChildSeed(parent, rand(old(draws)), rand(old(draws) + 1)), old(draws) + 2);
        branches == old(branches) + grown.0 && draws == grown.1
      decreases MaxDepth - parent.depth, 0
    {
      var turn := NextDraw();
      var shrink := NextDraw();
      CreateBranches(ChildSeed(parent, turn, shrink));
    }

    /**
     * One `animate` frame's state update: nothing while stopped; otherwise
     * one `Step`, and the switch scheduled when the pass is over.
     */
    method Animate() returns (next: Next)
      requires Valid()
      modifies this`anim, this`current
      ensures Valid()
      ensures !isDrawing ==> next == Stopped && State() == old(State())
      ensures isDrawing ==> State() == Step(old(State()))
      ensures isDrawing ==> next == if Finished(old(State())) then SwitchLater else NextFrame
    {
      if !isDrawing {
        return Stopped;
      }
      StepSafe(State());
      if mode == Drawing {
        if current < |anim| {
          var branch := anim[current];
          var progress := branch.progress + Speed / branch.branch.length;
          if progress >= 1.0 {
            anim := anim[current := branch.(progress := 1.0)];
            current := current + 1;
          } else {
            anim := anim[current := branch.(progress := progress)];
          }
        } else {
          return SwitchLater;
        }
      } else {
        if current >= 0 {
          var branch := anim[current];
          var progress := branch.progress - Speed / branch.branch.length;
          if progress <= 0.0 {
            anim := anim[current := branch.(progress := 0.0)];
            current := current - 1;
          } else {
            anim := anim[current := branch.(progress := progress)];
          }
        } else {
          return SwitchLater;
        }
      }
      next := NextFrame;
    }

    /** The timer callback after a finished draw pass: erase from the last branch. */
    method BeginErase() returns (next: Next)
      requires Valid()
      modifies this`mode, this`current
      ensures Valid()
      ensures State() == ToErase(old(State())) && next == NextFrame
    {
      mode := Erasing;
      current := |anim| - 1;
      next := NextFrame;
    }

    /** The timer callback after a finished erase pass: draw from the first branch. */
    method BeginDraw() returns (next: Next)
      requires Valid()
      modifies this`mode, this`current
      ensures Valid()
      ensures State() == ToDraw(old(State())) && next == NextFrame
    {
      mode := Drawing;
      current := 0;
      next := NextFrame;
    }

    /** `start`: sets the running flag and runs a frame. */
    method Start() returns (next: Next)
      requires Valid()
      modifies this`isDrawing, this`anim, this`current
      ensures Valid() && isDrawing
      ensures State() == Step(old(State()))
      ensures next == if Finished(old(State())) then SwitchLater else NextFrame
    {
      isDrawing := true;
      next := Animate();
    }

    /** `stop`: clears the running flag. */
    method Stop()
      modifies this`isDrawing
      ensures !isDrawing
    {
      isDrawing := false;
    }
  }

  /** Once stopped, a frame changes nothing and schedules nothing. */
  method StoppedFrame(tree: FractalTree) returns (next: Next)
    requires tree.Valid()
    modifies tree
    ensures next == Stopped
    ensures tree.State() == old(tree.State())
  {
    tree.Stop();
    next := tree.Animate();
  }
}
