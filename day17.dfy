/**
 * Day 17: Trick Shot. A probe leaves the origin with an integer velocity;
 * each move adds the velocity to the position, drag pulls the x-velocity
 * one step towards 0 and gravity lowers the y-velocity by one. The puzzle
 * asks for the launch velocities whose probe is inside the target area
 * after some move: `part1` the highest peak among them, `part2` their
 * number.
 */
module Day17 {
  import opened Common

  /** `Target`: the inclusive x and y ranges of the target area. */
  datatype Target = Target(xStart: int, xEnd: int, yStart: int, yEnd: int)

  predicate InX(target: Target, x: int) {
    target.xStart <= x <= target.xEnd
  }

  predicate InY(target: Target, y: int) {
    target.yStart <= y <= target.yEnd
  }

  /** One range of `parse_input`: `<prefix>A..B`, split at the first `..`. */
  function ParseRange(s: string, prefix: string): (r: Option<(int, int)>)
    ensures r.Some? ==> exists a, b :: s == prefix + (a + ".." + b) && ParseInt(a) == Some(r.value.0) && ParseInt(b) == Some(r.value.1)
  {
    match StripPrefix(s, prefix)
    case None => None
    case Some(range) =>
      match SplitOnce(range, "..")
      case None => None
      case Some((a, b)) =>
        match (ParseInt(a), ParseInt(b))
        case (Some(start), Some(end)) => Some((start, end))
        case _ => None
  }

  /** `parse_input`: `target area: x=A..B, y=C..D`, split at the first `, `; anything else panics. */
  function ParseInput(input: string): (r: Option<Target>)
    ensures r.Some? ==> exists xPart, yPart ::
      input == "target area: " + (xPart + ", " + yPart) &&
      ParseRange(xPart, "x=") == Some((r.value.xStart, r.value.xEnd)) &&
      ParseRange(yPart, "y=") == Some((r.value.yStart, r.value.yEnd))
  {
    match StripPrefix(input, "target area: ")
    case None => None
    case Some(ranges) =>
      match SplitOnce(ranges, ", ")
      case None => None
      case Some((xPart, yPart)) =>
        match (ParseRange(xPart, "x="), ParseRange(yPart, "y="))
        case (Some((xStart, xEnd)), Some((yStart, yEnd))) => Some(Target(xStart, xEnd, yStart, yEnd))
        case _ => None
  }

  // ---------------------------------------------------------------------
  // The trajectory

  /** The height after `n` moves launched with y-velocity `v`. */
  function YPos(v: int, n: nat): int {
    if n == 0 then 0 else YPos(v, n - 1) + (v - (n - 1))
  }

  /** Gravity in closed form: `n` moves rise `n * v - n * (n - 1) / 2`. */
  lemma {:induction false} YPosClosed(v: int, n: nat)
    ensures 2 * YPos(v, n) == 2 * n * v - n * (n - 1)
  {
    if n > 0 {
      YPosClosed(v, n - 1);
      assert 2 * n * v == 2 * (n - 1) * v + 2 * v;
      assert n * (n - 1) == (n - 1) * (n - 2) + 2 * (n - 1);
    }
  }

  /** The x-velocity after `k` moves: drag takes it one step towards 0, never below. */
  function XVel(v: int, k: nat): (r: int)
    ensures k > 0 ==> r >= 0
    ensures k > 0 && v >= 0 ==> r == Max(0, v - k)
    ensures k > 0 && v < 0 ==> r == 0
  {
    if k == 0 then v else Max(0, XVel(v, k - 1) - 1)
  }

  /** The x position after `n` moves launched with x-velocity `v`, as `simulate` tracks it. */
  function XSim(v: int, n: nat): int {
    if n == 0 then 0 else XSim(v, n - 1) + XVel(v, n - 1)
  }

  /** The x position after `n` moves as `reaching_x_velocities` sums it: `(0..n).map(|step| 0.max(x - step)).sum()`. */
  function XPos(x: int, n: nat): (r: int)
    ensures r >= 0
  {
    if n == 0 then 0 else XPos(x, n - 1) + Max(0, x - (n - 1))
  }

  /** For a non-negative launch both agree. */
  lemma {:induction false} XSimIsXPos(v: int, n: nat)
    requires v >= 0
    ensures XSim(v, n) == XPos(v, n)
  {
    if n > 0 {
      XSimIsXPos(v, n - 1);
      if n - 1 == 0 {
        assert XVel(v, 0) == Max(0, v);
      }
    }
  }

  /** The probe never moves back towards the origin along x. */
  lemma {:induction false} XPosMono(x: int, m: nat, n: nat)
    requires m <= n
    ensures XPos(x, m) <= XPos(x, n)
    decreases n
  {
    if m < n {
      XPosMono(x, m, n - 1);
    }
  }

  // ---------------------------------------------------------------------
  // max_height

  /** `max_height`: `(0..=v).sum()`, which is empty below 0. */
  function MaxHeight(v: int): (r: int)
    ensures v >= 0 ==> 2 * r == v * (v + 1)
    ensures v < 0 ==> r == 0
    decreases if v < 0 then 0 else v
  {
    if v <= 0 then 0 else MaxHeight(v - 1) + v
  }

  lemma ConsecutiveProduct(k: int)
    ensures k * (k + 1) >= 0
  {
    if k >= 0 {
      MulMono(0, k, k + 1);
    } else {
      assert k * (k + 1) == (-k) * (-k - 1);
      MulMono(0, -k, -k - 1);
    }
  }

  /** The doc comment's promise: no move of a probe launched with y-velocity `v` is higher than `max_height(v)`. */
  lemma MaxHeightBounds(v: int, n: nat)
    ensures YPos(v, n) <= MaxHeight(v)
  {
    YPosClosed(v, n);
    if v >= 0 {
      PeakGap(v, n);
    } else {
      FallingGap(v, n);
    }
  }

  lemma PeakGap(v: int, n: nat)
    ensures v * (v + 1) - (2 * n * v - n * (n - 1)) >= 0
  {
    var k := v - n;
    ConsecutiveProduct(k);
    assert v * (v + 1) - (2 * n * v - n * (n - 1)) == k * (k + 1);
  }

  lemma FallingGap(v: int, n: nat)
    requires v < 0
    ensures 2 * n * v - n * (n - 1) <= 0
  {
    var w := n - 1 - 2 * v;
    assert 2 * n * v - n * (n - 1) == -(n * w);
    MulMono(0, n, w);
  }

  /** ... and the probe does reach it, after `v` moves. */
  lemma MaxHeightReached(v: int)
    requires v >= 0
    ensures YPos(v, v) == MaxHeight(v)
  {
    YPosClosed(v, v);
    assert 2 * v * v - v * (v - 1) == v * (v + 1);
  }

  // ---------------------------------------------------------------------
  // y_in_target_range

  /**
   * Step `t` (counted from 0) of a launch with y-velocity `v` ends inside
   * the target's y-range, and the probe was never below the target's lower
   * edge before it.
   */
  predicate HitsY(target: Target, v: int, t: nat) {
    InY(target, YPos(v, t + 1)) && forall j :: 0 <= j <= t ==> YPos(v, j) >= target.yStart
  }

  /** `y_in_target_range`: the steps that end in the y-range, in increasing order, until the probe falls below it. */
  method YInTargetRange(target: Target, initialVelocity: int) returns (valid: seq<nat>)
    ensures forall t: nat :: t in valid <==> HitsY(target, initialVelocity, t)
    ensures forall i, j :: 0 <= i < j < |valid| ==> valid[i] < valid[j]
  {
    var currentVelocity := initialVelocity;
    var currentY := 0;
    var step: nat := 0;
    valid := [];
    while target.yStart <= currentY
      invariant currentY == YPos(initialVelocity, step) && currentVelocity == initialVelocity - step
      invariant forall j :: 0 <= j < step ==> YPos(initialVelocity, j) >= target.yStart
      invariant forall t: nat :: t in valid <==> t < step && HitsY(target, initialVelocity, t)
      invariant forall i, j :: 0 <= i < j < |valid| ==> valid[i] < valid[j]
      invariant forall i :: 0 <= i < |valid| ==> valid[i] < step
      decreases if currentVelocity >= 0 then currentVelocity + 1 else 0, currentY - target.yStart
    {
      currentY := currentY + currentVelocity;
      currentVelocity := currentVelocity - 1;
      if target.yStart <= currentY <= target.yEnd {
        valid := valid + [step];
      }
      step := step + 1;
    }
  }

  // ---------------------------------------------------------------------
  // reaching_x_velocities

  /** The number of moves `(0..=steps)` sums: `steps + 1`, none for a negative step. */
  function Moves(steps: int): nat {
    if steps < 0 then 0 else steps + 1
  }

  /** `reaching_x_velocities`: the x-velocities in `0..=x.end` whose drag-limited position after the step is in the x-range, in order. */
  function ReachingXVelocities(target: Target, steps: int): (r: seq<int>)
    ensures forall x :: x in r <==> 0 <= x <= target.xEnd && InX(target, XPos(x, Moves(steps)))
    ensures forall i, j :: 0 <= i < j < |r| ==> r[i] < r[j]
  {
    ReachingFrom(target, Moves(steps), 0)
  }

  function ReachingFrom(target: Target, n: nat, from: int): (r: seq<int>)
    ensures forall x :: x in r <==> from <= x <= target.xEnd && InX(target, XPos(x, n))
    ensures forall i, j :: 0 <= i < j < |r| ==> r[i] < r[j]
    ensures forall i :: 0 <= i < |r| ==> from <= r[i]
    decreases target.xEnd - from + 1
  {
    if from > target.xEnd then []
    else if InX(target, XPos(from, n)) then [from] + ReachingFrom(target, n, from + 1)
    else ReachingFrom(target, n, from + 1)
  }

  // ---------------------------------------------------------------------
  // possible_vectors

  /** The y-velocities `possible_vectors` tries: `0.min(y.start)..=y.start.abs().max(y.end.abs())`. */
  function MinY(target: Target): int {
    Min(0, target.yStart)
  }

  function MaxY(target: Target): int {
    Max(Abs(target.yStart), Abs(target.yEnd))
  }

  /** The x-velocities paired with y-velocity `v`: those that are in the x-range after a step `v` ends in the y-range. */
  ghost predicate ReachesAtSomeStep(target: Target, x: int, v: int) {
    0 <= x <= target.xEnd && exists t: nat :: HitsY(target, v, t) && InX(target, XPos(x, t + 1))
  }

  /** The vectors `possible_vectors` collects, as (x-velocity, y-velocity). */
  ghost predicate Possible(target: Target, vector: (int, int)) {
    MinY(target) <= vector.1 <= MaxY(target) && ReachesAtSomeStep(target, vector.0, vector.1)
  }

  /** The inner `flat_map` for one y-velocity: every x-velocity reaching the x-range at one of its steps. */
  method XVelocitiesFor(target: Target, v: int) returns (xs: set<int>)
    ensures forall x :: x in xs <==> ReachesAtSomeStep(target, x, v)
  {
    var steps := YInTargetRange(target, v);
    xs := {};
    var i := 0;
    while i < |steps|
      invariant 0 <= i <= |steps|
      invariant forall x :: x in xs <==> 0 <= x <= target.xEnd && exists k :: 0 <= k < i && InX(target, XPos(x, steps[k] + 1))
    {
      var reaching := ReachingXVelocities(target, steps[i]);
      xs := xs + set x | x in reaching;
      i := i + 1;
    }
    forall x | x in xs ensures ReachesAtSomeStep(target, x, v) {
      var k :| 0 <= k < i && InX(target, XPos(x, steps[k] + 1));
      assert steps[k] in steps;
    }
    forall x | ReachesAtSomeStep(target, x, v) ensures x in xs {
      var t: nat :| HitsY(target, v, t) && InX(target, XPos(x, t + 1));
      assert t in steps;
      var k :| 0 <= k < |steps| && steps[k] == t;
    }
  }

  /** `possible_vectors`: every (x, y) launch velocity it collects, and only those. */
  method PossibleVectors(target: Target) returns (vectors: set<(int, int)>)
    ensures forall vector :: vector in vectors <==> Possible(target, vector)
  {
    vectors := {};
    var y := MinY(target);
    while y <= MaxY(target)
      invariant MinY(target) <= y <= MaxY(target) + 1
      invariant forall vector :: vector in vectors <==> Possible(target, vector) && vector.1 < y
      decreases MaxY(target) - y
    {
      var xs := XVelocitiesFor(target, y);
      vectors := vectors + set x | x in xs :: (x, y);
      y := y + 1;
    }
  }

  // ---------------------------------------------------------------------
  // simulate

  /**
   * A launch with velocity `(vx, vy)` is inside the target after move `n`,
   * and the simulation was still running before it: not past the target's
   * right edge, not below its lower edge.
   */
  predicate ReachesAfter(target: Target, vx: int, vy: int, n: nat) {
    n >= 1 && InX(target, XSim(vx, n)) && InY(target, YPos(vy, n)) &&
    forall j :: 0 <= j < n ==> XSim(vx, j) <= target.xEnd && YPos(vy, j) >= target.yStart
  }

  ghost predicate Reaches(target: Target, vx: int, vy: int) {
    exists n: nat :: ReachesAfter(target, vx, vy, n)
  }

  /** `simulate`: whether the probe is inside the target after some move before it overshoots or falls below. */
  method Simulate(target: Target, vx: int, vy: int) returns (r: bool)
    ensures r <==> Reaches(target, vx, vy)
  {
    var velocity := (vx, vy);
    var currentX := 0;
    var currentY := 0;
    var k: nat := 0;
    while currentX <= target.xEnd && target.yStart <= currentY
      invariant currentX == XSim(vx, k) && currentY == YPos(vy, k)
      invariant velocity == (XVel(vx, k), vy - k)
      invariant forall j :: 0 <= j < k ==> XSim(vx, j) <= target.xEnd && YPos(vy, j) >= target.yStart
      invariant forall n: nat :: 1 <= n <= k ==> !(InX(target, XSim(vx, n)) && InY(target, YPos(vy, n)))
      decreases if velocity.1 >= 0 then velocity.1 + 1 else 0, currentY - target.yStart
    {
      currentX := currentX + velocity.0;
      currentY := currentY + velocity.1;
      velocity := (Max(0, velocity.0 - 1), velocity.1 - 1);
      k := k + 1;
      if target.xStart <= currentX <= target.xEnd && target.yStart <= currentY <= target.yEnd {
        assert ReachesAfter(target, vx, vy, k);
        return true;
      }
    }
    return false;
  }

  /** The sanity tests: every vector `possible_vectors` returns makes `simulate` report a hit. */
  lemma PossibleReaches(target: Target, vector: (int, int))
    requires Possible(target, vector)
    ensures Reaches(target, vector.0, vector.1)
  {
    var (x, y) := vector;
    var t: nat :| HitsY(target, y, t) && InX(target, XPos(x, t + 1));
    XSimIsXPos(x, t + 1);
    forall j | 0 <= j < t + 1 ensures XSim(x, j) <= target.xEnd && YPos(y, j) >= target.yStart {
      XSimIsXPos(x, j);
      XPosMono(x, j, t + 1);
    }
    assert ReachesAfter(target, x, y, t + 1);
  }

  /** The puzzle's target: to the right of the launch point and below it. */
  predicate Shaped(target: Target) {
    0 < target.xStart <= target.xEnd && target.yStart <= target.yEnd < 0
  }

  /** A launch with x-velocity at most 0 stops after its first move. */
  lemma {:induction false} XSimStalls(v: int, n: nat)
    requires v <= 0 && n >= 1
    ensures XSim(v, n) == v
  {
    if n > 1 {
      XSimStalls(v, n - 1);
    }
  }

  /** A probe launched upwards at least as fast as the target is deep
      passes every height between 0 and the target's lower edge: it is at
      or above 0 up to move `2v + 1` and below the target from then on. */
  lemma FallsThrough(target: Target, v: int, n: nat)
    requires target.yEnd < 0 && v >= 0 && v >= -target.yStart
    ensures !InY(target, YPos(v, n))
  {
    YPosClosed(v, n);
    assert 2 * n * v - n * (n - 1) == n * (2 * v + 1 - n);
    if n <= 2 * v + 1 {
      MulMono(0, n, 2 * v + 1 - n);
    } else {
      var m := n - (2 * v + 1);
      assert n * (2 * v + 1 - n) == -(n * m);
      MulMono(1, m, n);
    }
  }

  /** Every launch that hits a target of the puzzle's shape is one that
      `possible_vectors` collects: its x-velocity lies in `0..=x.end` and
      its y-velocity in the range tried. */
  lemma ReachesPossible(target: Target, vx: int, vy: int)
    requires Shaped(target) && Reaches(target, vx, vy)
    ensures Possible(target, (vx, vy))
  {
    var n: nat :| ReachesAfter(target, vx, vy, n);
    assert XSim(vx, 1) == vx && YPos(vy, 1) == vy;
    if vx <= 0 {
      XSimStalls(vx, n);
    }
    assert vx <= target.xEnd && vy >= target.yStart by {
      if n > 1 {
        assert 1 < n;
      }
    }
    if vy > -target.yStart {
      FallsThrough(target, vy, n);
    }
    XSimIsXPos(vx, n);
    assert HitsY(target, vy, n - 1);
  }

  /** For a target of the puzzle's shape the vectors `possible_vectors`
      collects are exactly the launches that hit it. */
  lemma PossibleIffReaches(target: Target)
    requires Shaped(target)
    ensures forall vector :: Possible(target, vector) <==> Reaches(target, vector.0, vector.1)
  {
    forall vector | Possible(target, vector) ensures Reaches(target, vector.0, vector.1) {
      PossibleReaches(target, vector);
    }
    forall vector: (int, int) | Reaches(target, vector.0, vector.1) ensures Possible(target, vector) {
      ReachesPossible(target, vector.0, vector.1);
    }
  }

  /** The straight shot at the target's lower-left corner hits on the
      first move, so such a target is always hit. */
  lemma CornerShot(target: Target)
    requires Shaped(target)
    ensures Reaches(target, target.xStart, target.yStart)
  {
    assert XSim(target.xStart, 1) == target.xStart && YPos(target.yStart, 1) == target.yStart;
    assert ReachesAfter(target, target.xStart, target.yStart, 1);
  }

  // ---------------------------------------------------------------------
  // part1 and part2

  /** The `.map(max_height).max()` of `part1`: the highest peak over a set of vectors, `None` for an empty set. */
  method HighestPeak(vectors: set<(int, int)>) returns (r: Option<int>)
    ensures r.None? <==> vectors == {}
    ensures r.Some? ==> (exists vector :: vector in vectors && r.value == MaxHeight(vector.1)) &&
                        forall vector :: vector in vectors ==> MaxHeight(vector.1) <= r.value
  {
    r := None;
    var rest := vectors;
    while rest != {}
      invariant rest <= vectors
      invariant r.None? ==> rest == vectors
      invariant r.Some? ==> exists vector :: vector in vectors && r.value == MaxHeight(vector.1)
      invariant r.Some? ==> forall vector :: vector in vectors - rest ==> MaxHeight(vector.1) <= r.value
      decreases |rest|
    {
      var vector :| vector in rest;
      if r.None? || MaxHeight(vector.1) > r.value {
        r := Some(MaxHeight(vector.1));
      }
      rest := rest - {vector};
    }
  }

  /** For a target of the puzzle's shape the highest peak over the
      collected vectors exists and is the highest over every hitting
      launch. */
  lemma ShapedPeak(target: Target, vectors: set<(int, int)>, peak: Option<int>)
    requires Shaped(target)
    requires forall vector :: vector in vectors <==> Possible(target, vector)
    requires peak.None? <==> vectors == {}
    requires peak.Some? ==> (exists vector :: vector in vectors && peak.value == MaxHeight(vector.1))
                            && forall vector :: vector in vectors ==> MaxHeight(vector.1) <= peak.value
    ensures peak.Some?
    ensures peak.Some? ==> (exists vx, vy :: Reaches(target, vx, vy) && peak.value == MaxHeight(vy))
    ensures peak.Some? ==> forall vx, vy :: Reaches(target, vx, vy) ==> MaxHeight(vy) <= peak.value
  {
    PossibleIffReaches(target);
    CornerShot(target);
    assert (target.xStart, target.yStart) in vectors;
    var vector :| vector in vectors && peak.value == MaxHeight(vector.1);
    assert Reaches(target, vector.0, vector.1);
    forall vx, vy | Reaches(target, vx, vy) ensures MaxHeight(vy) <= peak.value {
      assert (vx, vy) in vectors;
    }
  }

  /** `part1`: the highest peak among the possible vectors; `None` where parsing fails or there is none (`unwrap` panics). */
  method Part1(input: string) returns (r: Option<int>)
    ensures ParseInput(input).None? ==> r.None?
    ensures ParseInput(input).Some? ==> var target := ParseInput(input).value;
      (r.Some? <==> exists vector :: Possible(target, vector)) &&
      (r.Some? ==> (exists vector :: Possible(target, vector) && r.value == MaxHeight(vector.1)) &&
                   forall vector :: Possible(target, vector) ==> MaxHeight(vector.1) <= r.value)
    ensures ParseInput(input).Some? && Shaped(ParseInput(input).value) ==> var target := ParseInput(input).value;
      r.Some? && (exists vx, vy :: Reaches(target, vx, vy) && r.value == MaxHeight(vy)) &&
      forall vx, vy :: Reaches(target, vx, vy) ==> MaxHeight(vy) <= r.value
  {
    var parsed := ParseInput(input);
    if parsed.None? {
      return None;
    }
    var vectors := PossibleVectors(parsed.value);
    r := HighestPeak(vectors);
    if r.None? {
      assert forall vector :: !Possible(parsed.value, vector);
    }
    if Shaped(parsed.value) {
      ShapedPeak(parsed.value, vectors, r);
    }
  }

  /** `part2`: the number of possible vectors; `None` where parsing fails. */
  method Part2(input: string) returns (r: Option<nat>)
    ensures r.Some? <==> ParseInput(input).Some?
    ensures r.Some? ==> exists vectors: set<(int, int)> ::
      |vectors| == r.value && forall vector :: vector in vectors <==> Possible(ParseInput(input).value, vector)
    ensures r.Some? && Shaped(ParseInput(input).value) ==> exists vectors: set<(int, int)> ::
      |vectors| == r.value && forall vector :: vector in vectors <==> Reaches(ParseInput(input).value, vector.0, vector.1)
  {
    var parsed := ParseInput(input);
    if parsed.None? {
      return None;
    }
    var vectors := PossibleVectors(parsed.value);
    if Shaped(parsed.value) {
      PossibleIffReaches(parsed.value);
    }
    return Some(|vectors|);
  }
}
