/** Day 3, Binary Diagnostic: per-column majority bits (gamma and its
    complement epsilon) and the oxygen / CO2 ratings found by repeatedly
    filtering the report on one column. Report lines are strings of the
    characters '0' and '1'. */
module Day3 {
  import opened Common

  /** `mask(bits)`: the number whose lowest `bits` bits are set. */
  function Mask(bits: nat): (r: nat)
  {
    Pow2(bits) - 1
  }

  function Complement(b: seq<bool>): (c: seq<bool>)
    ensures |c| == |b|
  {
    seq(|b|, i requires 0 <= i < |b| => !b[i])
  }

  /** `(!gamma) & mask(n)`: the complement of an n-bit number within the
      mask shares no bit with it, and the two add up to the mask. */
  lemma {:induction false} ComplementValue(b: seq<bool>)
    ensures BitsValue(b) + BitsValue(Complement(b)) == Mask(|b|)
    ensures forall i :: 0 <= i < |b| ==> !(b[i] && Complement(b)[i])
  {
    if b != [] {
      var init := b[..|b| - 1];
      assert Complement(b)[..|b| - 1] == Complement(init);
      ComplementValue(init);
    }
  }

  /** `mask(bits)` is the number written with `bits` one-bits. */
  lemma {:induction false} MaskOnes(bits: nat)
    ensures Mask(bits) == BitsValue(seq(bits, _ => true))
  {
    if bits > 0 {
      var ones := seq(bits, _ => true);
      assert ones[..bits - 1] == seq(bits - 1, _ => true);
      MaskOnes(bits - 1);
    }
  }

  lemma MaskExample()
    ensures Mask(5) == 0x1F
  {
  }

  // ---------------------------------------------------------------------
  // Part 1

  /** Number of report lines with a '1' (resp. '0') in column `k`. */
  function Ones(lines: seq<string>, k: nat): nat
  {
    if lines == [] then 0
    else
      var last := lines[|lines| - 1];
      Ones(lines[..|lines| - 1], k) + (if k < |last| && last[k] == '1' then 1 else 0)
  }

  function Zeros(lines: seq<string>, k: nat): nat
  {
    if lines == [] then 0
    else
      var last := lines[|lines| - 1];
      Zeros(lines[..|lines| - 1], k) + (if k < |last| && last[k] == '0' then 1 else 0)
  }

  /** The gamma rate, bit by bit: set iff the column has more ones than
      zeros. */
  function GammaBits(lines: seq<string>, n: nat): (g: seq<bool>)
    ensures |g| == n
    ensures forall k :: 0 <= k < n ==> (g[k] <==> Ones(lines, k) > Zeros(lines, k))
  {
    seq(n, k requires 0 <= k < n => Ones(lines, k) > Zeros(lines, k))
  }

  /** The first loop of `part1`: the column counters `BITS` go up for a
      '1' and down for a '0'. */
  method CountColumns(lines: seq<string>, n: nat) returns (counters: seq<int>)
    requires forall i :: 0 <= i < |lines| ==> |lines[i]| <= n
    ensures |counters| == n
    ensures forall k :: 0 <= k < n ==> counters[k] == Ones(lines, k) - Zeros(lines, k)
  {
    var bits := new int[n](_ => 0);
    var i := 0;
    while i < |lines|
      invariant 0 <= i <= |lines|
      invariant forall k :: 0 <= k < n ==> bits[k] == Ones(lines[..i], k) - Zeros(lines[..i], k)
    {
      var line := lines[i];
      var j := 0;
      while j < |line|
        invariant 0 <= j <= |line| <= n
        invariant forall k :: 0 <= k < n ==>
          bits[k] == Ones(lines[..i], k) - Zeros(lines[..i], k)
                     + (if k < j && line[k] == '1' then 1 else 0)
                     - (if k < j && line[k] == '0' then 1 else 0)
      {
        if line[j] == '0' {
          bits[j] := bits[j] - 1;
        } else if line[j] == '1' {
          bits[j] := bits[j] + 1;
        }
        j := j + 1;
      }
      assert lines[..i + 1][..i] == lines[..i];
      i := i + 1;
    }
    assert lines[..i] == lines;
    counters := bits[..];
  }

  /** The second loop of `part1`: bit `n - 1 - idx` of gamma is set when
      counter `idx` is positive. */
  method Gamma(counters: seq<int>) returns (gamma: nat)
    ensures gamma == BitsValue(seq(|counters|, k requires 0 <= k < |counters| => counters[k] > 0))
  {
    var n := |counters|;
    ghost var g := seq(n, k requires 0 <= k < n => counters[k] > 0);
    gamma := 0;
    var idx := 0;
    while idx < n
      invariant 0 <= idx <= n
      invariant gamma == BitsValue(g[..idx]) * Pow2(n - idx)
    {
      // the bit set here is not set yet, so `|=` adds it
      gamma := gamma + (if counters[idx] > 0 then Pow2(n - 1 - idx) else 0);
      BitStep(g, idx, Pow2(n - 1 - idx));
      idx := idx + 1;
    }
    assert g[..n] == g;
  }

  /** `part1`: gamma has the majority bits and epsilon, its complement
      under the mask, the minority bits. */
  method Part1(lines: seq<string>) returns (r: nat)
    requires |lines| >= 1 && |lines[0]| < 32
    requires forall i :: 0 <= i < |lines| ==> |lines[i]| <= |lines[0]|
    ensures r == BitsValue(GammaBits(lines, |lines[0]|))
               * BitsValue(Complement(GammaBits(lines, |lines[0]|)))
  {
    var n := |lines[0]|;
    var counters := CountColumns(lines, n);
    var gamma := Gamma(counters);
    ghost var g := GammaBits(lines, n);
    assert seq(n, k requires 0 <= k < n => counters[k] > 0) == g;
    ComplementValue(g);
    var epsilon := Mask(n) - gamma;
    r := gamma * epsilon;
  }

  // ---------------------------------------------------------------------
  // Part 2

  /** The bit value a round of `reduce_list` keeps: for the most common
      value '1' wins ties, for the least common value '0' does. */
  function FilterBit(ones: nat, zeros: nat, most: bool): (c: char)
    ensures most ==> (c == '1' <==> ones >= zeros)
    ensures !most ==> (c == '1' <==> ones < zeros)
    ensures c == '0' || c == '1'
  {
    var balance := ones - zeros;
    if balance < 0 then (if most then '0' else '1')
    else (if most then '1' else '0')
  }

  /** `Vec::retain`: the lines whose column `idx` holds `bit`, in order. */
  function Retain(list: seq<string>, idx: nat, bit: char): (r: seq<string>)
    requires forall l :: l in list ==> idx < |l|
    ensures forall l :: l in r <==> l in list && l[idx] == bit
    ensures |r| <= |list|
  {
    if list == [] then []
    else
      var init := Retain(list[..|list| - 1], idx, bit);
      var last := list[|list| - 1];
      assert forall l :: l in list <==> l in list[..|list| - 1] || l == last;
      if last[idx] == bit then init + [last] else init
  }

  function MaxLen(list: seq<string>): (m: nat)
    ensures forall l :: l in list ==> |l| <= m
  {
    if list == [] then 0 else Max(|list[0]|, MaxLen(list[1..]))
  }

  /** The entry `reduce_list` ends with, starting at column `idx`;
      `None` where the source panics (a column past the end of a line, or
      a round that keeps no entry). */
  function Rating(list: seq<string>, most: bool, idx: nat, bound: nat): (r: Option<string>)
    requires forall l :: l in list ==> |l| <= bound
    ensures r.Some? ==> r.value in list
    decreases bound - idx
  {
    if |list| == 0 then None
    else if |list| == 1 then Some(list[0])
    else if !(forall l :: l in list ==> idx < |l|) then None
    else
      assert list[0] in list;
      var kept := Retain(list, idx, FilterBit(Ones(list, idx), Zeros(list, idx), most));
      Rating(kept, most, idx + 1, bound)
  }

  function LineBits(line: string): (b: seq<bool>)
    ensures |b| == |line|
  {
    seq(|line|, i requires 0 <= i < |line| => line[i] == '1')
  }

  /** The final loop of `reduce_list`: bit `idx` counted from the right
      is set for a '1'. */
  method LineValue(line: string) returns (result: nat)
    ensures result == BitsValue(LineBits(line))
  {
    result := 0;
    var idx := 0;
    var n := |line|;
    ghost var b := LineBits(line);
    while idx < n
      invariant 0 <= idx <= n
      invariant result == BitsValue(b[n - idx..])
    {
      var bit := line[n - 1 - idx];
      if bit == '1' {
        result := result + Pow2(idx);
      }
      assert b[n - 1 - idx..] == [b[n - 1 - idx]] + b[n - idx..];
      ConsBit(b[n - 1 - idx], b[n - idx..]);
      idx := idx + 1;
    }
    assert b[0..] == b;
  }

  /** The value of the rating entry, if there is one. */
  function RatingValue(list: seq<string>, most: bool): Option<nat>
  {
    match Rating(list, most, 0, MaxLen(list))
    case Some(l) => Some(BitsValue(LineBits(l)))
    case None => None
  }

  /** `reduce_list`: the filter rounds, then the value of the one entry
      left. */
  method ReduceList(list: seq<string>, most: bool) returns (r: Option<nat>)
    ensures r == RatingValue(list, most)
  {
    ghost var bound := MaxLen(list);
    var current := list;
    var idx := 0;
    while |current| > 1
      invariant forall l :: l in current ==> |l| <= bound
      invariant Rating(current, most, idx, bound) == Rating(list, most, 0, bound)
      decreases bound - idx
    {
      if !(forall l :: l in current ==> idx < |l|) {
        return None;
      }
      assert current[0] in current;
      var count := Ones(current, idx) - Zeros(current, idx);
      var filter := if count < 0 then (if most then '0' else '1') else (if most then '1' else '0');
      current := Retain(current, idx, filter);
      idx := idx + 1;
    }
    if |current| == 0 {
      return None;
    }
    var v := LineValue(current[0]);
    r := Some(v);
  }

  /** `part2`: oxygen (most common) times CO2 (least common) rating. */
  method Part2(lines: seq<string>) returns (r: Option<nat>)
    ensures r.Some? <==> RatingValue(lines, true).Some? && RatingValue(lines, false).Some?
    ensures r.Some? ==> r.value == RatingValue(lines, true).value * RatingValue(lines, false).value
  {
    var oxygen := ReduceList(lines, true);
    var co2 := ReduceList(lines, false);
    if oxygen.None? || co2.None? {
      return None;
    }
    r := Some(oxygen.value * co2.value);
  }
}
