/** Day 22, Reactor Reboot: reboot steps switch every cube of a cuboid on
    or off. The lit region is kept as a list of cuboids; a cuboid minus
    another is cut into at most six slabs, and at the end each list is
    compacted into pairwise disjoint cuboids whose sizes can be summed. */
module Day22 {
  import opened Common

  /** `RangeInclusive<isize>`: the integers `lo..=hi`, none when `hi < lo`. */
  datatype Range = Range(lo: int, hi: int)

  datatype Point = Point(x: int, y: int, z: int)

  datatype Cuboid = Cuboid(x: Range, y: Range, z: Range)

  datatype TargetState = On | Off

  datatype Instruction = Instruction(cuboid: Cuboid, state: TargetState)

  predicate InRange(r: Range, v: int) {
    r.lo <= v <= r.hi
  }

  predicate Contains(c: Cuboid, p: Point) {
    InRange(c.x, p.x) && InRange(c.y, p.y) && InRange(c.z, p.z)
  }

  /** No cube lies in both cuboids. */
  ghost predicate Apart(a: Cuboid, b: Cuboid) {
    forall p :: !(Contains(a, p) && Contains(b, p))
  }

  /** Some cuboid of the list contains `p`. */
  ghost predicate Covered(s: seq<Cuboid>, p: Point) {
    exists c :: c in s && Contains(c, p)
  }

  /** No cube lies in two cuboids of the list. */
  ghost predicate Disjoint(s: seq<Cuboid>) {
    forall i, j :: 0 <= i < j < |s| ==> Apart(s[i], s[j])
  }

  // ---------------------------------------------------------------------
  // Cuboid

  /** `RangeInclusive::count`. */
  function Count(r: Range): (n: nat)
    ensures n == 0 <==> r.hi < r.lo
  {
    if r.hi < r.lo then 0 else r.hi - r.lo + 1
  }

  function Corner(c: Cuboid): Point {
    Point(c.x.lo, c.y.lo, c.z.lo)
  }

  /** `is_empty`: some axis is an empty range, so no cube is inside. */
  predicate IsEmpty(c: Cuboid)
    ensures IsEmpty(c) ==> forall p :: !Contains(c, p)
    ensures !IsEmpty(c) ==> Contains(c, Corner(c))
  {
    c.x.hi < c.x.lo || c.y.hi < c.y.lo || c.z.hi < c.z.lo
  }

  /** `size`: the product of the three range lengths, zero exactly for an
      empty cuboid. */
  function Size(c: Cuboid): (n: nat)
    ensures n == 0 <==> IsEmpty(c)
  {
    NonZeroProduct(Count(c.x), Count(c.y), Count(c.z));
    Count(c.x) * Count(c.y) * Count(c.z)
  }

  lemma NonZeroProduct(a: nat, b: nat, c: nat)
    ensures a * b * c == 0 <==> a == 0 || b == 0 || c == 0
  {
    if a > 0 && b > 0 && c > 0 {
      assert a * b >= 1;
      assert a * b * c >= 1;
    }
  }

  function Intersect(a: Cuboid, b: Cuboid): (c: Cuboid)
    ensures forall p :: Contains(c, p) <==> Contains(a, p) && Contains(b, p)
  {
    Cuboid(Range(Max(a.x.lo, b.x.lo), Min(a.x.hi, b.x.hi)),
           Range(Max(a.y.lo, b.y.lo), Min(a.y.hi, b.y.hi)),
           Range(Max(a.z.lo, b.z.lo), Min(a.z.hi, b.z.hi)))
  }

  /** `overlaps`: the cuboid of the cubes both contain, `None` exactly when
      there is no such cube. */
  function Overlaps(a: Cuboid, b: Cuboid): (r: Option<Cuboid>)
    ensures r.Some? ==> !IsEmpty(r.value)
    ensures r.Some? ==> forall p :: Contains(r.value, p) <==> Contains(a, p) && Contains(b, p)
    ensures r.None? <==> Apart(a, b)
  {
    var c := Intersect(a, b);
    if IsEmpty(c) then None else Some(c)
  }

  /** `sub` is a non-empty cuboid inside `c`, as every overlap is. */
  predicate Inside(sub: Cuboid, c: Cuboid) {
    c.x.lo <= sub.x.lo <= sub.x.hi <= c.x.hi
    && c.y.lo <= sub.y.lo <= sub.y.hi <= c.y.hi
    && c.z.lo <= sub.z.lo <= sub.z.hi <= c.z.hi
  }

  /** The six slabs of `remove_sub_cuboid`, before the empty ones are
      dropped: below and above `sub` in x across the whole of `c`, then
      in y within `sub`'s x-range, then in z within its x- and y-ranges. */
  function Slabs(c: Cuboid, sub: Cuboid): seq<Cuboid>
  {
    [Cuboid(Range(c.x.lo, sub.x.lo - 1), c.y, c.z),
     Cuboid(Range(sub.x.hi + 1, c.x.hi), c.y, c.z),
     Cuboid(sub.x, Range(c.y.lo, sub.y.lo - 1), c.z),
     Cuboid(sub.x, Range(sub.y.hi + 1, c.y.hi), c.z),
     Cuboid(sub.x, sub.y, Range(c.z.lo, sub.z.lo - 1)),
     Cuboid(sub.x, sub.y, Range(sub.z.hi + 1, c.z.hi))]
  }

  /** Sum of the sizes of a list of cuboids. */
  function SumSizes(s: seq<Cuboid>): nat
  {
    if s == [] then 0 else Size(s[0]) + SumSizes(s[1..])
  }

  /** `retain(|elem| !elem.is_empty())`: the same cubes, the same total
      size, no empty cuboid, and nothing that was not in `s`. */
  function KeepNonEmpty(s: seq<Cuboid>): (r: seq<Cuboid>)
    ensures |r| <= |s|
    ensures forall i :: 0 <= i < |r| ==> !IsEmpty(r[i])
    ensures forall c :: c in r ==> c in s
    ensures forall p :: Covered(r, p) <==> Covered(s, p)
    ensures SumSizes(r) == SumSizes(s)
  {
    if s == [] then []
    else
      var rest := KeepNonEmpty(s[1..]);
      assert forall p :: Covered(s, p) <==> Contains(s[0], p) || Covered(s[1..], p) by {
        assert s == [s[0]] + s[1..];
      }
      if IsEmpty(s[0]) then rest else [s[0]] + rest
  }

  lemma {:induction false} KeepDisjoint(s: seq<Cuboid>)
    requires Disjoint(s)
    ensures Disjoint(KeepNonEmpty(s))
  {
    if s != [] {
      KeepDisjoint(s[1..]);
      var rest := KeepNonEmpty(s[1..]);
      if !IsEmpty(s[0]) {
        forall c | c in rest ensures Apart(s[0], c) {
          var j :| 0 <= j < |s[1..]| && s[1..][j] == c;
          assert s[j + 1] == c;
        }
        ConsDisjoint(s[0], rest);
      }
    }
  }

  lemma ConsDisjoint(c: Cuboid, s: seq<Cuboid>)
    requires Disjoint(s) && forall d :: d in s ==> Apart(c, d)
    ensures Disjoint([c] + s)
  {
    var r := [c] + s;
    forall i, j | 0 <= i < j < |r| ensures Apart(r[i], r[j]) {
      assert r[j] == s[j - 1];
      if i > 0 {
        assert r[i] == s[i - 1];
      } else {
        assert s[j - 1] in s;
      }
    }
  }

  /** Along one axis, a range inside `r` cuts it into the part below, the
      range itself and the part above. */
  lemma CountSplit(r: Range, s: Range)
    requires r.lo <= s.lo <= s.hi <= r.hi
    ensures Count(r) == Count(Range(r.lo, s.lo - 1)) + Count(s) + Count(Range(s.hi + 1, r.hi))
  {
  }

  lemma Distribute(a: nat, b: nat, c: nat, m: nat, n: nat)
    ensures (a + b + c) * m * n == a * m * n + b * m * n + c * m * n
    ensures m * (a + b + c) * n == m * a * n + m * b * n + m * c * n
    ensures m * n * (a + b + c) == m * n * a + m * n * b + m * n * c
  {
  }

  lemma SlabsSize(c: Cuboid, sub: Cuboid)
    requires Inside(sub, c)
    ensures SumSizes(Slabs(c, sub)) + Size(sub) == Size(c)
  {
    var s := Slabs(c, sub);
    CountSplit(c.x, sub.x);
    CountSplit(c.y, sub.y);
    CountSplit(c.z, sub.z);
    var (x0, x2) := (Count(Range(c.x.lo, sub.x.lo - 1)), Count(Range(sub.x.hi + 1, c.x.hi)));
    var (y0, y2) := (Count(Range(c.y.lo, sub.y.lo - 1)), Count(Range(sub.y.hi + 1, c.y.hi)));
    var (z0, z2) := (Count(Range(c.z.lo, sub.z.lo - 1)), Count(Range(sub.z.hi + 1, c.z.hi)));
    var (x1, y1, z1) := (Count(sub.x), Count(sub.y), Count(sub.z));
    Distribute(x0, x1, x2, Count(c.y), Count(c.z));
    Distribute(y0, y1, y2, x1, Count(c.z));
    Distribute(z0, z1, z2, x1, y1);
    assert SumSizes(s[5..]) == x1 * y1 * z2;
    assert SumSizes(s[4..]) == x1 * y1 * z0 + x1 * y1 * z2;
    assert SumSizes(s[3..]) == x1 * y2 * Count(c.z) + SumSizes(s[4..]);
    assert SumSizes(s[2..]) == x1 * y0 * Count(c.z) + SumSizes(s[3..]);
    assert SumSizes(s[1..]) == x2 * Count(c.y) * Count(c.z) + SumSizes(s[2..]);
  }

  lemma SlabsCover(c: Cuboid, sub: Cuboid)
    requires Inside(sub, c)
    ensures forall p :: Covered(Slabs(c, sub), p) <==> Contains(c, p) && !Contains(sub, p)
  {
    var s := Slabs(c, sub);
    forall p ensures Covered(s, p) <==> Contains(c, p) && !Contains(sub, p) {
      if Contains(c, p) && !Contains(sub, p) {
        if p.x < sub.x.lo {
          assert Contains(s[0], p);
        } else if p.x > sub.x.hi {
          assert Contains(s[1], p);
        } else if p.y < sub.y.lo {
          assert Contains(s[2], p);
        } else if p.y > sub.y.hi {
          assert Contains(s[3], p);
        } else if p.z < sub.z.lo {
          assert Contains(s[4], p);
        } else {
          assert Contains(s[5], p);
        }
      }
    }
  }

  lemma SlabsDisjoint(c: Cuboid, sub: Cuboid)
    requires Inside(sub, c)
    ensures Disjoint(Slabs(c, sub))
  {
    var s := Slabs(c, sub);
    forall i, j | 0 <= i < j < |s| ensures Apart(s[i], s[j]) {
    }
  }

  /** `remove_sub_cuboid`: for `sub` inside `c`, at most six non-empty,
      pairwise disjoint cuboids holding exactly the cubes of `c` outside
      `sub`, so their sizes add up to `size(c) - size(sub)`. */
  function RemoveSubCuboid(c: Cuboid, sub: Cuboid): (r: seq<Cuboid>)
    requires Inside(sub, c)
    ensures |r| <= 6
    ensures forall i :: 0 <= i < |r| ==> !IsEmpty(r[i])
    ensures Disjoint(r)
    ensures forall p :: Covered(r, p) <==> Contains(c, p) && !Contains(sub, p)
    ensures SumSizes(r) == Size(c) - Size(sub)
  {
    SlabsCover(c, sub);
    SlabsDisjoint(c, sub);
    SlabsSize(c, sub);
    KeepDisjoint(Slabs(c, sub));
    KeepNonEmpty(Slabs(c, sub))
  }

  lemma OverlapInside(c: Cuboid, other: Cuboid)
    requires Overlaps(c, other).Some?
    ensures Inside(Overlaps(c, other).value, c)
  {
  }

  /** `remove_overlap`: the cubes of `c` that are not in `other`, as
      disjoint cuboids; `[c]` itself when the two do not overlap. */
  function RemoveOverlap(c: Cuboid, other: Cuboid): (r: seq<Cuboid>)
    ensures Overlaps(c, other).None? ==> r == [c]
    ensures Overlaps(c, other).Some? ==> SumSizes(r) == Size(c) - Size(Overlaps(c, other).value)
    ensures forall p :: Covered(r, p) <==> Contains(c, p) && !Contains(other, p)
    ensures Disjoint(r)
  {
    match Overlaps(c, other)
    case Some(overlap) =>
      OverlapInside(c, other);
      RemoveSubCuboid(c, overlap)
    case None =>
      assert forall p :: Covered([c], p) <==> Contains(c, p) by {
        forall p | Contains(c, p) ensures Covered([c], p) {
          assert c in [c];
        }
      }
      [c]
  }

  // ---------------------------------------------------------------------
  // Lists of cuboids

  /** `flat_map(|elem| elem.remove_overlap(&cuboid))`: every cuboid of the
      list with `cut` taken out of it. */
  function CutAll(s: seq<Cuboid>, cut: Cuboid): (r: seq<Cuboid>)
    ensures forall p :: Covered(r, p) <==> Covered(s, p) && !Contains(cut, p)
    ensures Disjoint(s) ==> Disjoint(r)
  {
    if s == [] then []
    else
      var head := RemoveOverlap(s[0], cut);
      var rest := CutAll(s[1..], cut);
      FlatMapStep(s, head, rest);
      head + rest
  }

  /** One element of a `flat_map` whose pieces lie inside the element they
      come from: the cubes add up, and a disjoint list stays disjoint. */
  lemma FlatMapStep(s: seq<Cuboid>, head: seq<Cuboid>, rest: seq<Cuboid>)
    requires s != []
    requires forall p :: Covered(head, p) ==> Contains(s[0], p)
    requires forall p :: Covered(rest, p) ==> Covered(s[1..], p)
    requires Disjoint(head) && (Disjoint(s[1..]) ==> Disjoint(rest))
    ensures forall p :: Covered(head + rest, p) <==> Covered(head, p) || Covered(rest, p)
    ensures forall p :: Covered(s, p) <==> Contains(s[0], p) || Covered(s[1..], p)
    ensures Disjoint(s) ==> Disjoint(head + rest)
  {
    CoveredAppend(head, rest);
    assert s == [s[0]] + s[1..];
    CoveredAppend([s[0]], s[1..]);
    CoveredSingle(s[0]);
    if Disjoint(s) {
      assert Disjoint(s[1..]) by {
        forall i, j | 0 <= i < j < |s[1..]| ensures Apart(s[1..][i], s[1..][j]) {
          assert s[1..][i] == s[i + 1] && s[1..][j] == s[j + 1];
        }
      }
      HeadApart(s);
      forall a, b | a in head && b in rest ensures Apart(a, b) {
        forall p ensures !(Contains(a, p) && Contains(b, p)) {
          if Contains(a, p) {
            assert Covered(head, p);
          }
          if Contains(b, p) {
            assert Covered(rest, p);
          }
        }
      }
      DisjointAppend(head, rest);
    }
  }

  /** In a disjoint list, the first cuboid shares no cube with the rest. */
  lemma HeadApart(s: seq<Cuboid>)
    requires s != [] && Disjoint(s)
    ensures forall d :: d in s[1..] ==> Apart(s[0], d)
  {
    forall d | d in s[1..] ensures Apart(s[0], d) {
      var j :| 0 <= j < |s[1..]| && s[1..][j] == d;
      assert s[j + 1] == d;
    }
  }

  lemma CoveredAppend(a: seq<Cuboid>, b: seq<Cuboid>)
    ensures forall p :: Covered(a + b, p) <==> Covered(a, p) || Covered(b, p)
  {
    forall p ensures Covered(a + b, p) <==> Covered(a, p) || Covered(b, p) {
      if Covered(a + b, p) {
        var c :| c in a + b && Contains(c, p);
        assert c in a || c in b;
      }
      if Covered(a, p) {
        var c :| c in a && Contains(c, p);
        assert c in a + b;
      }
      if Covered(b, p) {
        var c :| c in b && Contains(c, p);
        assert c in a + b;
      }
    }
  }

  lemma DisjointAppend(a: seq<Cuboid>, b: seq<Cuboid>)
    requires Disjoint(a) && Disjoint(b)
    requires forall x, y :: x in a && y in b ==> Apart(x, y)
    ensures Disjoint(a + b)
  {
    var r := a + b;
    forall i, j | 0 <= i < j < |r| ensures Apart(r[i], r[j]) {
      if j < |a| {
        assert r[i] == a[i] && r[j] == a[j];
      } else if i >= |a| {
        assert r[i] == b[i - |a|] && r[j] == b[j - |a|];
      } else {
        assert r[i] == a[i] && r[j] == b[j - |a|];
        assert a[i] in a && b[j - |a|] in b;
      }
    }
  }

  /** The final `fold` of `perform`: each cuboid in turn is cut out of the
      list built so far and then pushed, so the result covers the same
      cubes with pairwise disjoint cuboids. */
  function Compact(s: seq<Cuboid>): (r: seq<Cuboid>)
    ensures forall p :: Covered(r, p) <==> Covered(s, p)
    ensures Disjoint(r)
  {
    if s == [] then []
    else
      var last := s[|s| - 1];
      var init := Compact(s[..|s| - 1]);
      var cut := CutAll(init, last);
      assert forall p :: Covered(s, p) <==> Covered(s[..|s| - 1], p) || Contains(last, p) by {
        assert s == s[..|s| - 1] + [last];
        CoveredAppend(s[..|s| - 1], [last]);
        CoveredSingle(last);
      }
      CoveredAppend(cut, [last]);
      CoveredSingle(last);
      forall a, b | a in cut && b in [last] ensures Apart(a, b) {
        forall p ensures !(Contains(a, p) && Contains(b, p)) {
          if Contains(a, p) {
            assert Covered(cut, p);
          }
        }
      }
      DisjointAppend(cut, [last]);
      cut + [last]
  }

  lemma CoveredSingle(c: Cuboid)
    ensures forall p :: Covered([c], p) <==> Contains(c, p)
  {
    forall p | Contains(c, p) ensures Covered([c], p) {
      assert c in [c];
    }
  }

  // ---------------------------------------------------------------------
  // Reboot

  /** Reference meaning of a reboot: a cube is lit when the last step that
      covers it switches it on; a cube no step covers stays off. */
  predicate Lit(steps: seq<Instruction>, p: Point)
  {
    if steps == [] then false
    else if Contains(steps[|steps| - 1].cuboid, p) then steps[|steps| - 1].state == On
    else Lit(steps[..|steps| - 1], p)
  }

  /** Some step covers the cube. */
  predicate Touched(steps: seq<Instruction>, p: Point)
  {
    if steps == [] then false
    else Contains(steps[|steps| - 1].cuboid, p) || Touched(steps[..|steps| - 1], p)
  }

  /** The two lists of `perform` after the first `i` steps: the on-list
      covers the lit cubes, the off-list the cubes switched off again. */
  ghost predicate Tracks(steps: seq<Instruction>, on: seq<Cuboid>, off: seq<Cuboid>)
  {
    forall p :: TracksAt(steps, on, off, p)
  }

  ghost predicate TracksAt(steps: seq<Instruction>, on: seq<Cuboid>, off: seq<Cuboid>, p: Point)
  {
    (Covered(on, p) <==> Lit(steps, p))
    && (Covered(off, p) <==> Touched(steps, p) && !Lit(steps, p))
  }

  lemma LitSnoc(steps: seq<Instruction>, i: nat, p: Point)
    requires i < |steps|
    ensures Lit(steps[..i + 1], p)
      == if Contains(steps[i].cuboid, p) then steps[i].state == On else Lit(steps[..i], p)
    ensures Touched(steps[..i + 1], p) == (Contains(steps[i].cuboid, p) || Touched(steps[..i], p))
  {
    assert steps[..i + 1][..i] == steps[..i];
  }

  lemma TracksStep(steps: seq<Instruction>, i: nat, on: seq<Cuboid>, off: seq<Cuboid>,
                   on': seq<Cuboid>, off': seq<Cuboid>)
    requires i < |steps| && Tracks(steps[..i], on, off)
    requires steps[i].state == On ==> on' == on + [steps[i].cuboid] && off' == CutAll(off, steps[i].cuboid)
    requires steps[i].state == Off ==> off' == off + [steps[i].cuboid] && on' == CutAll(on, steps[i].cuboid)
    ensures Tracks(steps[..i + 1], on', off')
  {
    var c := steps[i].cuboid;
    var (add, kept) := if steps[i].state == On then (on, off) else (off, on);
    var (add', kept') := if steps[i].state == On then (on', off') else (off', on');
    assert add' == add + [c] && kept' == CutAll(kept, c);
    CoveredAppend(add, [c]);
    CoveredSingle(c);
    var steps' := steps[..i + 1];
    forall p ensures TracksAt(steps', on', off', p) {
      LitSnoc(steps, i, p);
      assert TracksAt(steps[..i], on, off, p);
      assert Covered(add', p) <==> Covered(add, p) || Contains(c, p);
      assert Covered(kept', p) <==> Covered(kept, p) && !Contains(c, p);
    }
  }

  /** After a step, no cuboid of the list it does not add to overlaps the
      step's cuboid. */
  lemma OppositeApart(steps: seq<Instruction>, on: seq<Cuboid>, off: seq<Cuboid>)
    requires |steps| > 0 && Tracks(steps, on, off)
    ensures var last := steps[|steps| - 1];
      forall d :: d in (if last.state == On then off else on) ==> Overlaps(d, last.cuboid).None?
  {
    var last := steps[|steps| - 1];
    forall d | d in (if last.state == On then off else on) ensures Apart(d, last.cuboid) {
      forall p ensures !(Contains(d, p) && Contains(last.cuboid, p)) {
        assert TracksAt(steps, on, off, p);
      }
    }
  }

  /** `perform`: the steps applied one by one to an on-list and an
      off-list, then both lists compacted. The on-list then covers exactly
      the lit cubes, the off-list exactly the cubes some step switched off
      for good, and no cube lies in two cuboids of the same list. */
  method Perform(steps: seq<Instruction>) returns (on: seq<Cuboid>, off: seq<Cuboid>)
    ensures Tracks(steps, on, off)
    ensures Disjoint(on) && Disjoint(off)
  {
    var onList: seq<Cuboid> := [];
    var offList: seq<Cuboid> := [];
    var i := 0;
    while i < |steps|
      invariant 0 <= i <= |steps|
      invariant Tracks(steps[..i], onList, offList)
    {
      var c := steps[i].cuboid;
      var (on', off') := (onList, offList);
      if steps[i].state == On {
        offList := CutAll(offList, c);
        onList := onList + [c];
      } else {
        onList := CutAll(onList, c);
        offList := offList + [c];
      }
      TracksStep(steps, i, on', off', onList, offList);
      i := i + 1;
    }
    assert steps[..i] == steps;
    on := Compact(onList);
    off := Compact(offList);
    forall p ensures TracksAt(steps, on, off, p) {
      assert TracksAt(steps, onList, offList, p);
    }
  }

  /** `part1`'s region: the cubes with every coordinate in `-50..=50`. */
  const Region := Cuboid(Range(-50, 50), Range(-50, 50), Range(-50, 50))

  /** `flat_map(|elem| elem.overlaps(&region))`: the part of every cuboid
      inside `region`, empty parts dropped. */
  function Clip(s: seq<Cuboid>, region: Cuboid): (r: seq<Cuboid>)
    ensures forall p :: Covered(r, p) <==> Covered(s, p) && Contains(region, p)
    ensures Disjoint(s) ==> Disjoint(r)
  {
    if s == [] then []
    else
      var head := match Overlaps(s[0], region) case Some(o) => [o] case None => [];
      var rest := Clip(s[1..], region);
      assert forall p :: Covered(head, p) <==> Contains(s[0], p) && Contains(region, p) by {
        if head != [] {
          CoveredSingle(head[0]);
        }
      }
      FlatMapStep(s, head, rest);
      head + rest
  }

  // ---------------------------------------------------------------------
  // Counting cubes

  /** The cubes of a cuboid, as a finite set. */
  ghost function Cubes(c: Cuboid): set<Point>
  {
    set x, y, z | c.x.lo <= x <= c.x.hi && c.y.lo <= y <= c.y.hi && c.z.lo <= z <= c.z.hi
      :: Point(x, y, z)
  }

  lemma CubesContain(c: Cuboid)
    ensures forall p :: p in Cubes(c) <==> Contains(c, p)
  {
    forall p | Contains(c, p) ensures p in Cubes(c) {
      assert p == Point(p.x, p.y, p.z);
    }
  }

  /** `size` counts the cubes of a cuboid. */
  lemma {:induction false} CubesSize(c: Cuboid)
    ensures |Cubes(c)| == Size(c)
    decreases Size(c)
  {
    CubesContain(c);
    if IsEmpty(c) {
      assert Cubes(c) == {};
    } else if Count(c.x) == 1 && Count(c.y) == 1 && Count(c.z) == 1 {
      assert Cubes(c) == {Corner(c)};
    } else {
      var (c1, c2) :=
        if Count(c.x) > 1 then
          (Cuboid(Range(c.x.lo, c.x.lo), c.y, c.z), Cuboid(Range(c.x.lo + 1, c.x.hi), c.y, c.z))
        else if Count(c.y) > 1 then
          (Cuboid(c.x, Range(c.y.lo, c.y.lo), c.z), Cuboid(c.x, Range(c.y.lo + 1, c.y.hi), c.z))
        else
          (Cuboid(c.x, c.y, Range(c.z.lo, c.z.lo)), Cuboid(c.x, c.y, Range(c.z.lo + 1, c.z.hi)));
      SplitSize(c, c1, c2);
      SplitCubes(c, c1, c2);
      CubesSize(c1);
      CubesSize(c2);
    }
  }

  lemma SplitCubes(c: Cuboid, c1: Cuboid, c2: Cuboid)
    requires forall p :: Contains(c, p) <==> Contains(c1, p) || Contains(c2, p)
    requires Apart(c1, c2)
    ensures Cubes(c) == Cubes(c1) + Cubes(c2) && Cubes(c1) !! Cubes(c2)
  {
    CubesContain(c);
    CubesContain(c1);
    CubesContain(c2);
  }

  /** Cutting a non-empty cuboid along one axis into two non-empty halves
      splits its size. */
  lemma SplitSize(c: Cuboid, c1: Cuboid, c2: Cuboid)
    requires !IsEmpty(c)
    requires (Count(c.x) > 1 && c1 == Cuboid(Range(c.x.lo, c.x.lo), c.y, c.z)
                             && c2 == Cuboid(Range(c.x.lo + 1, c.x.hi), c.y, c.z))
          || (Count(c.y) > 1 && c1 == Cuboid(c.x, Range(c.y.lo, c.y.lo), c.z)
                             && c2 == Cuboid(c.x, Range(c.y.lo + 1, c.y.hi), c.z))
          || (Count(c.z) > 1 && c1 == Cuboid(c.x, c.y, Range(c.z.lo, c.z.lo))
                             && c2 == Cuboid(c.x, c.y, Range(c.z.lo + 1, c.z.hi)))
    ensures Size(c1) + Size(c2) == Size(c)
    ensures 0 < Size(c1) < Size(c) && 0 < Size(c2) < Size(c)
    ensures forall p :: Contains(c, p) <==> Contains(c1, p) || Contains(c2, p)
    ensures Apart(c1, c2)
  {
    var (x, y, z) := (Count(c.x), Count(c.y), Count(c.z));
    Distribute(1, x - 1, 0, y, z);
    Distribute(1, y - 1, 0, x, z);
    Distribute(1, z - 1, 0, x, y);
  }

  /** The cubes of a list of cuboids. */
  ghost function Union(s: seq<Cuboid>): (u: set<Point>)
    ensures forall p :: p in u <==> Covered(s, p)
  {
    if s == [] then {}
    else
      CubesContain(s[0]);
      assert forall p :: Covered(s, p) <==> Contains(s[0], p) || Covered(s[1..], p) by {
        assert s == [s[0]] + s[1..];
        CoveredAppend([s[0]], s[1..]);
        CoveredSingle(s[0]);
      }
      Cubes(s[0]) + Union(s[1..])
  }

  /** For pairwise disjoint cuboids the sizes add up to the number of
      cubes they hold. */
  lemma {:induction false} DisjointUnionSize(s: seq<Cuboid>)
    requires Disjoint(s)
    ensures |Union(s)| == SumSizes(s)
  {
    if s != [] {
      assert Disjoint(s[1..]) by {
        forall i, j | 0 <= i < j < |s[1..]| ensures Apart(s[1..][i], s[1..][j]) {
          assert s[1..][i] == s[i + 1] && s[1..][j] == s[j + 1];
        }
      }
      DisjointUnionSize(s[1..]);
      CubesSize(s[0]);
      CubesContain(s[0]);
      HeadApart(s);
      assert Cubes(s[0]) !! Union(s[1..]);
    }
  }

  /** Every cube some step covers. */
  ghost function Reached(steps: seq<Instruction>): (u: set<Point>)
    ensures forall p :: p in u <==> Touched(steps, p)
  {
    if steps == [] then {}
    else
      CubesContain(steps[|steps| - 1].cuboid);
      Reached(steps[..|steps| - 1]) + Cubes(steps[|steps| - 1].cuboid)
  }

  lemma {:induction false} LitTouched(steps: seq<Instruction>, p: Point)
    ensures Lit(steps, p) ==> Touched(steps, p)
  {
    if steps != [] {
      LitTouched(steps[..|steps| - 1], p);
    }
  }

  /** The cubes that are on once all the steps are done. */
  ghost function LitCubes(steps: seq<Instruction>): set<Point>
  {
    set p | p in Reached(steps) && Lit(steps, p)
  }

  /** `part1`: the number of lit cubes with every coordinate in
      `-50..=50`. */
  method Part1(steps: seq<Instruction>) returns (total: nat)
    ensures total == |set p | p in LitCubes(steps) && Contains(Region, p)|
  {
    var on, off := Perform(steps);
    var clipped := Clip(on, Region);
    total := SumSizes(clipped);
    DisjointUnionSize(clipped);
    forall p ensures p in Union(clipped) <==> p in LitCubes(steps) && Contains(Region, p) {
      assert TracksAt(steps, on, off, p);
      LitTouched(steps, p);
    }
    assert Union(clipped) == set p | p in LitCubes(steps) && Contains(Region, p);
  }

  /** `part2`: the number of lit cubes. */
  method Part2(steps: seq<Instruction>) returns (total: nat)
    ensures total == |LitCubes(steps)|
  {
    var on, off := Perform(steps);
    total := SumSizes(on);
    DisjointUnionSize(on);
    forall p ensures p in Union(on) <==> p in LitCubes(steps) {
      assert TracksAt(steps, on, off, p);
      LitTouched(steps, p);
    }
    assert Union(on) == LitCubes(steps);
  }

  // ---------------------------------------------------------------------
  // Parsing

  /** `TargetState::from_str`: only "on" and "off". */
  function ParseState(s: string): (r: Option<TargetState>)
    ensures r == Some(On) <==> s == "on"
    ensures r == Some(Off) <==> s == "off"
    ensures r.None? <==> s != "on" && s != "off"
  {
    if s == "on" then Some(On) else if s == "off" then Some(Off) else None
  }

  /** The `(start, end)` texts of the pieces of `splitn(3, ',')` that have
      an `=` followed by a `..`; the others are dropped by `flat_map`. */
  function RangeTexts(pieces: seq<string>): (r: seq<(string, string)>)
    ensures |r| <= |pieces|
  {
    if pieces == [] then []
    else
      var head :=
        match SplitOnce(pieces[0], "=")
        case None => []
        case Some((_, range)) =>
          match SplitOnce(range, "..")
          case None => []
          case Some((start, end)) => [(start, end)];
      head + RangeTexts(pieces[1..])
  }

  /** Both bounds of every range parsed as integers; `None` at the first
      that does not parse. */
  function ParseBounds(texts: seq<(string, string)>): (r: Option<seq<Range>>)
    ensures r.Some? ==> |r.value| == |texts|
    ensures r.Some? ==> forall i :: 0 <= i < |texts| ==>
      ParseInt(texts[i].0) == Some(r.value[i].lo) && ParseInt(texts[i].1) == Some(r.value[i].hi)
    ensures r.None? ==> exists i :: 0 <= i < |texts| && (ParseInt(texts[i].0).None? || ParseInt(texts[i].1).None?)
  {
    if texts == [] then Some([])
    else
      var lo := ParseInt(texts[0].0);
      var hi := ParseInt(texts[0].1);
      var rest := ParseBounds(texts[1..]);
      if lo.None? || hi.None? then None
      else if rest.None? then
        var i :| 0 <= i < |texts[1..]| && (ParseInt(texts[1..][i].0).None? || ParseInt(texts[1..][i].1).None?);
        assert texts[1..][i] == texts[i + 1];
        None
      else Some([Range(lo.value, hi.value)] + rest.value)
  }

  /** `Cuboid::from_str`: an error when a bound does not parse or unless
      exactly three ranges are found; otherwise the cuboid of those three
      ranges in order. */
  function ParseCuboid(s: string): (r: Option<Cuboid>)
    ensures r.Some? ==> |RangeTexts(SplitN(s, 3, ','))| == 3
    ensures |RangeTexts(SplitN(s, 3, ','))| != 3 ==> r.None?
    ensures r.Some? ==> var t := RangeTexts(SplitN(s, 3, ','));
      ParseInt(t[0].0) == Some(r.value.x.lo) && ParseInt(t[0].1) == Some(r.value.x.hi)
      && ParseInt(t[1].0) == Some(r.value.y.lo) && ParseInt(t[1].1) == Some(r.value.y.hi)
      && ParseInt(t[2].0) == Some(r.value.z.lo) && ParseInt(t[2].1) == Some(r.value.z.hi)
  {
    match ParseBounds(RangeTexts(SplitN(s, 3, ',')))
    case Some(ranges) =>
      if |ranges| == 3 then Some(Cuboid(ranges[0], ranges[1], ranges[2])) else None
    case None => None
  }

  /** `CuboidInstruction::from_str`: the state before the first space and
      the cuboid after it; a line without a space panics (`None`). */
  function ParseInstruction(line: string): (r: Option<Instruction>)
    ensures r.Some? ==>
      (exists state, cuboid ::
         line == state + " " + cuboid && ' ' !in state
         && ParseState(state) == Some(r.value.state) && ParseCuboid(cuboid) == Some(r.value.cuboid))
  {
    match SplitOnce(line, " ")
    case None => None
    case Some((state, cuboid)) =>
      match (ParseState(state), ParseCuboid(cuboid))
      case (Some(st), Some(c)) =>
        SplitOnceBefore(line, ' ');
        Some(Instruction(c, st))
      case _ => None
  }

  /** The other direction: a state word, a space and a cuboid text that
      parses always give that instruction. */
  lemma ParseInstructionParses(state: string, cuboid: string)
    requires ParseState(state).Some? && ParseCuboid(cuboid).Some?
    ensures ParseInstruction(state + " " + cuboid) == Some(Instruction(ParseCuboid(cuboid).value, ParseState(state).value))
  {
    assert ' ' !in state;
    SplitOnceFirst(state, ' ', cuboid);
  }

  /** `parse_input`: every line parsed, a panic (`None`) at the first
      malformed one. */
  function ParseInput(lines: seq<string>): (r: Option<seq<Instruction>>)
    ensures r.Some? <==> forall i :: 0 <= i < |lines| ==> ParseInstruction(lines[i]).Some?
    ensures r.Some? ==>
      (|r.value| == |lines| && forall i :: 0 <= i < |lines| ==> ParseInstruction(lines[i]) == Some(r.value[i]))
  {
    if forall i | 0 <= i < |lines| :: ParseInstruction(lines[i]).Some? then
      Some(seq(|lines|, i requires 0 <= i < |lines| => ParseInstruction(lines[i]).value))
    else None
  }
}
