/** Day 7, The Treachery of Whales: the cheapest common position for the
    crabs, with linear fuel cost (part 1) and triangular fuel cost
    (part 2). */
module Day7 {
  import opened Common

  /** `parse_input`: comma-separated signed positions. */
  function ParseInput(input: string): (r: Option<seq<int>>)
    ensures r.Some? <==> forall i :: 0 <= i < |Split(input, ',')| ==> ParseInt(Split(input, ',')[i]).Some?
    ensures r.Some? ==> (|r.value| == |Split(input, ',')|
      && forall i :: 0 <= i < |r.value| ==> ParseInt(Split(input, ',')[i]) == Some(r.value[i]))
  {
    var items := Split(input, ',');
    assert forall i :: 0 <= i < |items| ==> items[i] == Split(input, ',')[i];
    ParseInts(items)
  }

  /** Positions written with commas between them read back as
      themselves. */
  lemma ParseInputRoundTrip(positions: seq<int>)
    requires positions != []
    ensures ParseInput(Join(ShowInts(positions), ',')) == Some(positions)
  {
    SplitShowInts(positions, ',');
    ParseShowInts(positions);
  }

  /** Linear fuel to bring every crab to `dest`. */
  function LinearCost(s: seq<int>, dest: int): nat
  {
    if s == [] then 0 else Abs(s[0] - dest) + LinearCost(s[1..], dest)
  }

  lemma {:induction false} LinearCostSnoc(s: seq<int>, x: int, dest: int)
    ensures LinearCost(s + [x], dest) == LinearCost(s, dest) + Abs(x - dest)
  {
    if s != [] {
      assert (s + [x])[1..] == s[1..] + [x];
      LinearCostSnoc(s[1..], x, dest);
    }
  }

  lemma LinearCostPermutation(s: seq<int>, t: seq<int>, dest: int)
    requires multiset(s) == multiset(t)
    ensures LinearCost(s, dest) == LinearCost(t, dest)
    decreases |s|
  {
    if s != [] {
      var x := s[0];
      assert x in multiset(t);
      var k :| 0 <= k < |t| && t[k] == x;
      var t' := t[..k] + t[k + 1..];
      PermutationRemove(s, t, k);
      LinearCostPermutation(s[1..], t', dest);
      LinearCostSplit(t[..k], x, t[k + 1..], dest);
    }
  }

  lemma {:induction false} LinearCostSplit(a: seq<int>, x: int, b: seq<int>, dest: int)
    ensures LinearCost(a + [x] + b, dest) == Abs(x - dest) + LinearCost(a + b, dest)
  {
    if a == [] {
      assert a + [x] + b == [x] + b;
      assert ([x] + b)[1..] == b;
      assert a + b == b;
    } else {
      assert (a + [x] + b)[1..] == a[1..] + [x] + b;
      assert (a + b)[1..] == a[1..] + b;
      LinearCostSplit(a[1..], x, b, dest);
    }
  }

  /** In sorted order the median `s[|s| / 2]` is no worse than any other
      position: the outermost pair costs at least its spread wherever the
      crabs meet, and exactly its spread at the median. */
  lemma {:induction false} MedianIsOptimal(s: seq<int>, dest: int)
    requires Sorted(s) && |s| >= 1
    ensures LinearCost(s, s[|s| / 2]) <= LinearCost(s, dest)
    decreases |s|
  {
    var m := s[|s| / 2];
    if |s| == 2 {
      assert s[1..] == [s[1]];
      assert s[1..][1..] == [];
      assert LinearCost(s[1..], m) == 0;
      assert LinearCost(s, m) == s[1] - s[0];
      assert LinearCost(s[1..], dest) == Abs(s[1] - dest);
      assert LinearCost(s, dest) == Abs(s[0] - dest) + Abs(s[1] - dest);
    } else if |s| > 2 {
      var n := |s|;
      var mid := s[1..n - 1];
      assert mid[|mid| / 2] == m;
      MedianIsOptimal(mid, dest);
      assert s[1..] == mid + [s[n - 1]];
      LinearCostSnoc(mid, s[n - 1], m);
      LinearCostSnoc(mid, s[n - 1], dest);
      assert s[0] <= m <= s[n - 1];
    }
  }

  /** `part1`: the positions are sorted and the linear cost to the median
      is summed; it is the least linear cost over all positions. */
  function Part1(positions: seq<int>): (r: nat)
    requires |positions| >= 1
    ensures forall dest :: r <= LinearCost(positions, dest)
    ensures exists i :: 0 <= i < |positions| && r == LinearCost(positions, positions[i])
  {
    var sorted := SortSeq(positions);
    var median := sorted[|sorted| / 2];
    assert forall dest :: LinearCost(sorted, median) <= LinearCost(sorted, dest) by {
      forall dest ensures LinearCost(sorted, median) <= LinearCost(sorted, dest) {
        MedianIsOptimal(sorted, dest);
      }
    }
    assert forall dest :: LinearCost(positions, dest) == LinearCost(sorted, dest) by {
      forall dest ensures LinearCost(positions, dest) == LinearCost(sorted, dest) {
        LinearCostPermutation(positions, sorted, dest);
      }
    }
    assert median in multiset(positions) by {
      assert median in multiset(sorted);
    }
    LinearCost(sorted, median)
  }

  /** `cost`: the n-th step of a crab costs n. */
  function Cost(dist: nat): (r: nat)
  {
    dist * (dist + 1) / 2
  }

  /** Sum of the step costs `1 + 2 + ... + n`. */
  function Triangle(n: nat): nat
  {
    if n == 0 then 0 else Triangle(n - 1) + n
  }

  lemma {:induction false} CostIsTriangle(dist: nat)
    ensures Cost(dist) == Triangle(dist)
  {
    if dist > 0 {
      CostIsTriangle(dist - 1);
      assert dist * (dist + 1) == (dist - 1) * dist + 2 * dist;
    }
  }

  lemma {:induction false} TriangleMonotone(a: nat, b: nat)
    requires a <= b
    ensures Triangle(a) <= Triangle(b)
    decreases b
  {
    if a < b {
      TriangleMonotone(a, b - 1);
    }
  }

  function FuelCost(s: seq<int>, dest: int): nat
  {
    if s == [] then 0 else Cost(Abs(s[0] - dest)) + FuelCost(s[1..], dest)
  }

  /** The smallest `FuelCost` over the destinations `lo..=hi`. */
  function MinFuel(s: seq<int>, lo: int, hi: int): (r: nat)
    requires lo <= hi
    ensures forall d :: lo <= d <= hi ==> r <= FuelCost(s, d)
    ensures exists d :: lo <= d <= hi && r == FuelCost(s, d)
    decreases hi - lo
  {
    if lo == hi then FuelCost(s, lo)
    else
      var rest := MinFuel(s, lo + 1, hi);
      if FuelCost(s, lo) <= rest then FuelCost(s, lo) else rest
  }

  /** Moving the meeting point further below every crab never helps. */
  lemma {:induction false} FuelBelow(s: seq<int>, d: int, e: int)
    requires d <= e
    requires forall i :: 0 <= i < |s| ==> e <= s[i]
    ensures FuelCost(s, e) <= FuelCost(s, d)
  {
    if s != [] {
      FuelBelow(s[1..], d, e);
      CostIsTriangle(Abs(s[0] - e));
      CostIsTriangle(Abs(s[0] - d));
      TriangleMonotone(Abs(s[0] - e), Abs(s[0] - d));
    }
  }

  /** Moving the meeting point further above every crab never helps. */
  lemma {:induction false} FuelAbove(s: seq<int>, d: int, e: int)
    requires e <= d
    requires forall i :: 0 <= i < |s| ==> s[i] <= e
    ensures FuelCost(s, e) <= FuelCost(s, d)
  {
    if s != [] {
      FuelAbove(s[1..], d, e);
      CostIsTriangle(Abs(s[0] - e));
      CostIsTriangle(Abs(s[0] - d));
      TriangleMonotone(Abs(s[0] - e), Abs(s[0] - d));
    }
  }

  /** After sorting, the first element is the least and the last the
      greatest. */
  lemma SortedBounds(positions: seq<int>, sorted: seq<int>)
    requires |positions| >= 1 && Sorted(sorted) && multiset(sorted) == multiset(positions)
    ensures |sorted| == |positions|
    ensures forall i :: 0 <= i < |positions| ==> sorted[0] <= positions[i] <= sorted[|sorted| - 1]
  {
    assert |sorted| == |multiset(sorted)| == |multiset(positions)| == |positions|;
    forall i | 0 <= i < |positions| ensures sorted[0] <= positions[i] <= sorted[|sorted| - 1] {
      assert positions[i] in multiset(sorted);
    }
  }

  /** `part2`: after sorting, `min` is the first and `max` the last
      position; the least fuel over `min..=max` is the least fuel over
      every position. */
  function Part2(positions: seq<int>): (r: nat)
    requires |positions| >= 1
    ensures forall dest :: r <= FuelCost(positions, dest)
    ensures exists dest :: r == FuelCost(positions, dest)
  {
    var sorted := SortSeq(positions);
    var lo := sorted[0];
    var hi := sorted[|sorted| - 1];
    SortedBounds(positions, sorted);
    var r := MinFuel(positions, lo, hi);
    forall dest ensures r <= FuelCost(positions, dest) {
      if dest < lo {
        FuelBelow(positions, dest, lo);
      } else if dest > hi {
        FuelAbove(positions, dest, hi);
      }
    }
    r
  }
}
