/** Day 1, Sonar Sweep: counting depth increases, one measurement apart
    (part 1) and between overlapping three-measurement windows (part 2). */
module Day1 {
  import opened Common

  /** `parse_input`: every line is an unsigned number; a line that does
      not parse makes the source panic, modelled as `None`. */
  function ParseInput(lines: seq<string>): (r: Option<seq<nat>>)
    ensures r.Some? ==> |r.value| == |lines|
    ensures r.Some? ==> forall i :: 0 <= i < |lines| ==> ParseNat(lines[i]) == Some(r.value[i])
    ensures r.None? ==> exists i :: 0 <= i < |lines| && ParseNat(lines[i]).None?
  {
    if lines == [] then Some([])
    else
      match ParseInput(lines[..|lines| - 1])
      case None => None
      case Some(init) =>
        match ParseNat(lines[|lines| - 1])
        case None => None
        case Some(v) => Some(init + [v])
  }

  /** Number of positions `i` with `a[i + gap] > a[i]`. */
  function CountGaps(a: seq<int>, gap: nat): nat
  {
    if |a| <= gap then 0
    else CountGaps(a[..|a| - 1], gap) + (if a[|a| - 1] > a[|a| - 1 - gap] then 1 else 0)
  }

  /** Number of positions `i` at which the window starting at `i + 1` has a
      larger sum than the window starting at `i`. */
  function CountWindowIncreases(a: seq<int>): nat
  {
    if |a| <= 3 then 0
    else
      var n := |a|;
      CountWindowIncreases(a[..n - 1])
        + (if a[n - 3] + a[n - 2] + a[n - 1] > a[n - 4] + a[n - 3] + a[n - 2] then 1 else 0)
  }

  lemma {:induction false} CountGapsBound(a: seq<int>, gap: nat)
    ensures |a| <= gap ==> CountGaps(a, gap) == 0
    ensures |a| > gap ==> CountGaps(a, gap) <= |a| - gap
  {
    if |a| > gap {
      CountGapsBound(a[..|a| - 1], gap);
    }
  }

  /** The shared middle terms cancel: comparing two overlapping windows is
      comparing the measurements three apart. */
  lemma {:induction false} WindowsAreGapThree(a: seq<int>)
    ensures CountWindowIncreases(a) == CountGaps(a, 3)
  {
    if |a| > 3 {
      WindowsAreGapThree(a[..|a| - 1]);
    }
  }

  /** `part1`: the loop keeps the previous measurement in `last`; an
      empty input makes the first `unwrap` panic, modelled as `None`. */
  method Part1(a: seq<int>) returns (r: Option<nat>)
    ensures r.None? <==> |a| == 0
    ensures r.Some? ==> r.value == CountGaps(a, 1)
  {
    if |a| == 0 {
      return None;
    }
    var last := a[0];
    var counter := 0;
    var i := 1;
    while i < |a|
      invariant 1 <= i <= |a|
      invariant last == a[i - 1]
      invariant counter == CountGaps(a[..i], 1)
    {
      var current := a[i];
      if current > last {
        counter := counter + 1;
      }
      last := current;
      i := i + 1;
      assert a[..i][..i - 1] == a[..i - 1];
    }
    assert a[..i] == a;
    r := Some(counter);
  }

  /** `part2`: `window1` holds the sum of the three measurements before
      `current`, `window2` the last two of them and `window3` the last;
      fewer than three measurements make an `unwrap` panic, modelled as
      `None`. */
  method Part2(a: seq<int>) returns (r: Option<nat>)
    ensures r.None? <==> |a| < 3
    ensures r.Some? ==> r.value == CountWindowIncreases(a) && r.value == CountGaps(a, 3)
  {
    if |a| < 3 {
      return None;
    }
    var window1, window2, window3 := a[0], a[1], a[2];
    window2 := window2 + window3;
    window1 := window1 + window2;
    var counter := 0;
    var i := 3;
    while i < |a|
      invariant 3 <= i <= |a|
      invariant window1 == a[i - 3] + a[i - 2] + a[i - 1]
      invariant window2 == a[i - 2] + a[i - 1]
      invariant window3 == a[i - 1]
      invariant counter == CountWindowIncreases(a[..i])
    {
      var current := a[i];
      if window2 + current > window1 {
        counter := counter + 1;
      }
      window1 := window2 + current;
      window2 := window3 + current;
      window3 := current;
      i := i + 1;
      assert a[..i][..i - 1] == a[..i - 1];
    }
    assert a[..i] == a;
    WindowsAreGapThree(a);
    r := Some(counter);
  }

  /** The example of the puzzle text: 7 increases and 5 window increases. */
  lemma Example()
    ensures CountGaps([199, 200, 208, 210, 200, 207, 240, 269, 260, 263], 1) == 7
    ensures CountWindowIncreases([199, 200, 208, 210, 200, 207, 240, 269, 260, 263]) == 5
  {
    var a := [199, 200, 208, 210, 200, 207, 240, 269, 260, 263];
    assert a[..2][..1] == a[..1];
    assert CountGaps(a[..2], 1) == 1;
    assert a[..3][..2] == a[..2];
    assert CountGaps(a[..3], 1) == 2;
    assert a[..4][..3] == a[..3];
    assert CountGaps(a[..4], 1) == 3;
    assert a[..5][..4] == a[..4];
    assert CountGaps(a[..5], 1) == 3;
    assert a[..6][..5] == a[..5];
    assert CountGaps(a[..6], 1) == 4;
    assert a[..7][..6] == a[..6];
    assert CountGaps(a[..7], 1) == 5;
    assert a[..8][..7] == a[..7];
    assert CountGaps(a[..8], 1) == 6;
    assert a[..9][..8] == a[..8];
    assert CountGaps(a[..9], 1) == 6;
    assert a[..10][..9] == a[..9];
    assert CountGaps(a[..10], 1) == 7;
    assert CountWindowIncreases(a[..4]) == 1;
    assert CountWindowIncreases(a[..5]) == 1;
    assert CountWindowIncreases(a[..6]) == 1;
    assert CountWindowIncreases(a[..7]) == 2;
    assert CountWindowIncreases(a[..8]) == 3;
    assert CountWindowIncreases(a[..9]) == 4;
    assert CountWindowIncreases(a[..10]) == 5;
    assert a[..10] == a;
  }
}
