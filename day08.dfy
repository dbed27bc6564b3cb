/** Day 8, Seven Segment Search: each display shows the ten digits with
    its segment wires shuffled; the ten patterns seen are enough to tell
    which pattern is which digit, and so to read the four output digits. */
module Day8 {
  import opened Common

  /** A `u8` holding bit `idx` exactly when segment "abcdefg"[idx] is lit. */
  type Segments = bv8

  const Letters: string := "abcdefg"

  /** All seven segments: the digit eight. */
  const Eight: Segments := 0x7F

  function Mask(idx: nat): (m: Segments)
    requires idx < 8
    ensures m == 1 << idx
  {
    if idx == 0 then 1 else if idx == 1 then 2 else if idx == 2 then 4 else if idx == 3 then 8
    else if idx == 4 then 16 else if idx == 5 then 32 else if idx == 6 then 64 else 128
  }

  predicate Bit(s: Segments, idx: nat)
    requires idx < 8
  {
    s & Mask(idx) != 0
  }

  lemma OrBit(a: Segments, b: Segments, idx: nat)
    requires idx < 8
    ensures Bit(a | b, idx) <==> Bit(a, idx) || Bit(b, idx)
  {
  }

  lemma MaskBit(k: nat, idx: nat)
    requires k < 8 && idx < 8
    ensures Bit(Mask(k), idx) <==> idx == k
  {
  }

  /** Two patterns with the same bits are equal. */
  lemma BitsEqual(a: Segments, b: Segments)
    requires forall idx :: 0 <= idx < 8 ==> (Bit(a, idx) <==> Bit(b, idx))
    ensures a == b
  {
    assert Bit(a, 0) == Bit(b, 0) && Bit(a, 1) == Bit(b, 1) && Bit(a, 2) == Bit(b, 2);
    assert Bit(a, 3) == Bit(b, 3) && Bit(a, 4) == Bit(b, 4) && Bit(a, 5) == Bit(b, 5);
    assert Bit(a, 6) == Bit(b, 6) && Bit(a, 7) == Bit(b, 7);
  }

  // ---------------------------------------------------------------------
  // count_ones

  /** The number of set bits below `n`. */
  function CountBelow(s: Segments, n: nat): (r: nat)
    requires n <= 8
    ensures r <= n
  {
    if n == 0 then 0 else CountBelow(s, n - 1) + (if Bit(s, n - 1) then 1 else 0)
  }

  /** `u8::count_ones`. */
  function CountOnes(s: Segments): (r: nat)
    ensures r <= 8
  {
    (if s & 1 != 0 then 1 else 0) + (if s & 2 != 0 then 1 else 0) +
    (if s & 4 != 0 then 1 else 0) + (if s & 8 != 0 then 1 else 0) +
    (if s & 16 != 0 then 1 else 0) + (if s & 32 != 0 then 1 else 0) +
    (if s & 64 != 0 then 1 else 0) + (if s & 128 != 0 then 1 else 0)
  }

  /** The popcount counts the set bits one by one. */
  lemma CountOnesBelow(s: Segments)
    ensures CountOnes(s) == CountBelow(s, 8)
  {
    assert CountBelow(s, 2) == (if s & 1 != 0 then 1 else 0) + (if s & 2 != 0 then 1 else 0);
    assert CountBelow(s, 4) == CountBelow(s, 2) + (if s & 4 != 0 then 1 else 0) + (if s & 8 != 0 then 1 else 0);
    assert CountBelow(s, 6) == CountBelow(s, 4) + (if s & 16 != 0 then 1 else 0) + (if s & 32 != 0 then 1 else 0);
  }

  // ---------------------------------------------------------------------
  // str_to_segment

  /** The bits of the first `n` letters of "abcdefg" that occur in `input`. */
  function LettersIn(input: string, n: nat): (r: Segments)
    requires n <= 7
    ensures forall idx :: 0 <= idx < 8 ==> (Bit(r, idx) <==> idx < n && Letters[idx] in input)
  {
    if n == 0 then 0
    else
      var prev := LettersIn(input, n - 1);
      var r := if Letters[n - 1] in input then prev | Mask(n - 1) else prev;
      assert forall idx :: 0 <= idx < 8 ==> (Bit(r, idx) <==> idx < n && Letters[idx] in input) by {
        forall idx | 0 <= idx < 8
          ensures Bit(r, idx) <==> idx < n && Letters[idx] in input
        {
          OrBit(prev, Mask(n - 1), idx);
          MaskBit(n - 1, idx);
        }
      }
      r
  }

  /** `str_to_segment`: the pattern of the letters in `input`, or `None`
      where the length check fails (the `assert_eq!` panics). */
  function Segment(input: string): (r: Option<Segments>)
  {
    var bits := LettersIn(input, 7);
    if |input| == CountOnes(bits) then Some(bits) else None
  }

  /** `str_to_segment` as written: OR the bit of each letter that occurs
      into `result`, then check the length against the popcount. */
  method StrToSegment(input: string) returns (r: Option<Segments>)
    ensures r == Segment(input)
    ensures r.Some? ==> forall idx :: 0 <= idx < 8 ==> (Bit(r.value, idx) <==> idx < 7 && Letters[idx] in input)
  {
    var result: Segments := 0;
    var idx := 0;
    while idx < 7
      invariant 0 <= idx <= 7
      invariant result == LettersIn(input, idx)
    {
      if Letters[idx] in input {
        result := result | Mask(idx);
      }
      idx := idx + 1;
    }
    if |input| == CountOnes(result) {
      r := Some(result);
    } else {
      r := None;
    }
  }

  /** The letters of "abcdefg" among the first `n` that occur in `input`. */
  ghost function LetterSet(input: string, n: nat): set<char>
    requires n <= 7
  {
    set c | c in Letters[..n] && c in input
  }

  /** The popcount of the pattern is the number of distinct segment
      letters in the input. */
  lemma {:induction false} CountLetters(input: string, n: nat)
    requires n <= 7
    ensures CountBelow(LettersIn(input, 7), n) == |LetterSet(input, n)|
  {
    if n > 0 {
      CountLetters(input, n - 1);
      var c := Letters[n - 1];
      assert Letters[..n] == Letters[..n - 1] + [c];
      assert c !in Letters[..n - 1];
      if c in input {
        assert LetterSet(input, n) == LetterSet(input, n - 1) + {c};
      } else {
        assert LetterSet(input, n) == LetterSet(input, n - 1);
      }
    }
  }


  /** The length check of `str_to_segment` passes exactly for inputs made
      of distinct segment letters. */
  lemma SegmentAccepts(input: string)
    ensures Segment(input).Some? <==> Distinct(input) && forall c :: c in input ==> c in Letters
  {
    CountLetters(input, 7);
    CountOnesBelow(LettersIn(input, 7));
    DistinctCount(input);
    assert Letters[..7] == Letters;
    var letters := LetterSet(input, 7);
    var chars := Elems(input);
    assert letters <= chars;
    if letters == chars {
      assert forall c :: c in input ==> c in Letters by {
        forall c | c in input ensures c in Letters {
          assert c in chars;
        }
      }
    } else {
      var c :| c in chars && c !in letters;
      StrictSubsetSmaller(letters, chars, c);
      assert c in input && c !in Letters;
    }
  }

  lemma StrictSubsetSmaller<T>(a: set<T>, b: set<T>, x: T)
    requires a <= b && x in b && x !in a
    ensures |a| < |b|
  {
    var rest := b - a;
    assert b == a + rest && a * rest == {};
    assert x in rest;
  }

  // ---------------------------------------------------------------------
  // Sequence::decode

  datatype Sequence = Sequence(examples: seq<Segments>, output: seq<Segments>)

  /** `Iterator::find`: the index of the first element satisfying `p`. */
  function Find(xs: seq<Segments>, p: Segments -> bool): (r: Option<nat>)
    ensures r.Some? ==> r.value < |xs| && p(xs[r.value])
    ensures r.Some? ==> forall j :: 0 <= j < r.value ==> !p(xs[j])
    ensures r.None? ==> forall j :: 0 <= j < |xs| ==> !p(xs[j])
  {
    if xs == [] then None
    else if p(xs[0]) then Some(0)
    else
      match Find(xs[1..], p)
      case None => None
      case Some(i) => Some(i + 1)
  }

  /** `filter(|elem| elem.count_ones() == n).collect()`: the patterns
      with `n` segments, in order. */
  function WithCount(xs: seq<Segments>, n: nat): (r: seq<Segments>)
    ensures |r| <= |xs|
    ensures forall x :: x in r <==> x in xs && CountOnes(x) == n
  {
    if xs == [] then []
    else (if CountOnes(xs[0]) == n then [xs[0]] else []) + WithCount(xs[1..], n)
  }

  /** The lookup table `[zero, one, …, nine]` of `decode`. */
  datatype Table = Table(zero: Segments, one: Segments, two: Segments, three: Segments, four: Segments,
                         five: Segments, six: Segments, seven: Segments, eight: Segments, nine: Segments)

  /** `lookup[d]`. */
  function Entry(t: Table, d: nat): Segments
    requires d < 10
  {
    match d
    case 0 => t.zero
    case 1 => t.one
    case 2 => t.two
    case 3 => t.three
    case 4 => t.four
    case 5 => t.five
    case 6 => t.six
    case 7 => t.seven
    case 8 => t.eight
    case _ => t.nine
  }

  /** What `decode` demands of its lookup table: one, four and seven by
      their popcount, eight all segments; of the 6-segment patterns six
      together with one lights everything, nine covers four and zero is
      another; of the 5-segment patterns three covers one, five lies
      within six and two is another. */
  predicate IsLookup(t: Table) {
    UniquesOk(t.one, t.four, t.seven) && t.eight == Eight &&
    SixesOk(t.zero, t.six, t.nine, t.one, t.four) && FivesOk(t.two, t.three, t.five, t.one, t.six)
  }

  predicate UniquesOk(one: Segments, four: Segments, seven: Segments) {
    CountOnes(one) == 2 && CountOnes(four) == 4 && CountOnes(seven) == 3
  }

  predicate SixesOk(zero: Segments, six: Segments, nine: Segments, one: Segments, four: Segments) {
    CountOnes(zero) == 6 && CountOnes(six) == 6 && CountOnes(nine) == 6 &&
    six | one == Eight && nine | four == nine && zero != six && zero != nine
  }

  predicate FivesOk(two: Segments, three: Segments, five: Segments, one: Segments, six: Segments) {
    CountOnes(two) == 5 && CountOnes(three) == 5 && CountOnes(five) == 5 &&
    three | one == three && five | six == six && two != three && two != five
  }

  /** one, four and seven: the first patterns with 2, 4 and 3 segments. */
  function Uniques(examples: seq<Segments>): (r: Option<(Segments, Segments, Segments)>)
    ensures r.Some? ==> r.value.0 in examples && r.value.1 in examples && r.value.2 in examples
    ensures r.Some? ==> UniquesOk(r.value.0, r.value.1, r.value.2)
  {
    var one := Find(examples, x => CountOnes(x) == 2);
    var four := Find(examples, x => CountOnes(x) == 4);
    var seven := Find(examples, x => CountOnes(x) == 3);
    if one.None? || four.None? || seven.None? then None
    else Some((examples[one.value], examples[four.value], examples[seven.value]))
  }

  /** zero, six and nine among the 6-segment patterns, `None` where a
      `find` comes back empty. */
  function Sixes(examples: seq<Segments>, one: Segments, four: Segments): (r: Option<(Segments, Segments, Segments)>)
    ensures r.Some? ==> r.value.0 in examples && r.value.1 in examples && r.value.2 in examples
    ensures r.Some? ==> SixesOk(r.value.0, r.value.1, r.value.2, one, four)
  {
    var seg6 := WithCount(examples, 6);
    var six := Find(seg6, x => x | one == Eight);
    var nine := Find(seg6, x => x | four == x);
    if six.None? || nine.None? then None
    else
      var six, nine := seg6[six.value], seg6[nine.value];
      var zero := Find(seg6, x => x != six && x != nine);
      if zero.None? then None else Some((seg6[zero.value], six, nine))
  }

  /** two, three and five among the 5-segment patterns. */
  function Fives(examples: seq<Segments>, one: Segments, six: Segments): (r: Option<(Segments, Segments, Segments)>)
    ensures r.Some? ==> r.value.0 in examples && r.value.1 in examples && r.value.2 in examples
    ensures r.Some? ==> FivesOk(r.value.0, r.value.1, r.value.2, one, six)
  {
    var seg5 := WithCount(examples, 5);
    var three := Find(seg5, x => x | one == x);
    var five := Find(seg5, x => x | six == six);
    if three.None? || five.None? then None
    else
      var three, five := seg5[three.value], seg5[five.value];
      var two := Find(seg5, x => x != three && x != five);
      if two.None? then None else Some((seg5[two.value], three, five))
  }

  /** The lookup table `decode` builds from the patterns seen, or `None`
      where one of its `find(..).unwrap()` panics. */
  function Lookup(examples: seq<Segments>): (r: Option<Table>)
    ensures r.Some? ==> IsLookup(r.value)
    ensures r.Some? ==> r.value.zero in examples && r.value.one in examples && r.value.two in examples
    ensures r.Some? ==> r.value.three in examples && r.value.four in examples && r.value.five in examples
    ensures r.Some? ==> r.value.six in examples && r.value.seven in examples && r.value.nine in examples
  {
    match Uniques(examples)
    case None => None
    case Some((one, four, seven)) =>
      match Sixes(examples, one, four)
      case None => None
      case Some((zero, six, nine)) =>
        match Fives(examples, one, six)
        case None => None
        case Some((two, three, five)) =>
          Some(Table(zero, one, two, three, four, five, six, seven, Eight, nine))
  }

  /** `lookup.iter().position(..)`: the digit an output pattern shows. */
  function Digit(t: Table, pattern: Segments): (r: Option<nat>)
    ensures r.Some? ==> r.value < 10 && Entry(t, r.value) == pattern
    ensures r.Some? ==> forall d :: 0 <= d < r.value ==> Entry(t, d) != pattern
    ensures r.None? <==> forall d :: 0 <= d < 10 ==> Entry(t, d) != pattern
  {
    DigitFrom(t, pattern, 0)
  }

  /** The first digit from `d` on whose pattern is `pattern`. */
  function DigitFrom(t: Table, pattern: Segments, d: nat): (r: Option<nat>)
    requires d <= 10
    ensures r.Some? ==> d <= r.value < 10 && Entry(t, r.value) == pattern
    ensures r.Some? ==> forall e :: d <= e < r.value ==> Entry(t, e) != pattern
    ensures r.None? <==> forall e :: d <= e < 10 ==> Entry(t, e) != pattern
    decreases 10 - d
  {
    if d == 10 then None
    else if Entry(t, d) == pattern then Some(d)
    else DigitFrom(t, pattern, d + 1)
  }

  /** `fold(0, |state, next| state * 10 + next)`. */
  function Decimal(digits: seq<nat>): nat
  {
    if digits == [] then 0 else Decimal(digits[..|digits| - 1]) * 10 + digits[|digits| - 1]
  }

  function Pow10(n: nat): (r: nat)
    ensures r >= 1
  {
    if n == 0 then 1 else 10 * Pow10(n - 1)
  }

  /** Decimal digits make a number below 10^k, k the number of digits. */
  lemma {:induction false} DecimalBound(digits: seq<nat>)
    requires forall i :: 0 <= i < |digits| ==> digits[i] < 10
    ensures Decimal(digits) < Pow10(|digits|)
  {
    if digits != [] {
      var init := digits[..|digits| - 1];
      DecimalBound(init);
      MulMono(Decimal(init) + 1, Pow10(|init|), 10);
    }
  }

  /** The digits of the output patterns, `None` where one is not in the
      table (its `unwrap` panics). */
  function Digits(t: Table, output: seq<Segments>): (r: Option<seq<nat>>)
    ensures r.Some? ==> |r.value| == |output| && forall i :: 0 <= i < |output| ==> r.value[i] < 10
    ensures r.Some? ==> forall i :: 0 <= i < |output| ==> Digit(t, output[i]) == Some(r.value[i])
    ensures r.None? <==> exists i :: 0 <= i < |output| && Digit(t, output[i]).None?
  {
    if output == [] then Some([])
    else
      var init := Digits(t, output[..|output| - 1]);
      var d := Digit(t, output[|output| - 1]);
      if init.None? then
        var i :| 0 <= i < |output| - 1 && Digit(t, output[..|output| - 1][i]).None?;
        assert output[i] == output[..|output| - 1][i];
        None
      else if d.None? then None
      else Some(init.value + [d.value])
  }

  /** Reading one more output pattern appends its digit. */
  lemma DigitsSnoc(t: Table, output: seq<Segments>, x: Segments)
    requires Digits(t, output).Some? && Digit(t, x).Some?
    ensures Digits(t, output + [x]) == Some(Digits(t, output).value + [Digit(t, x).value])
  {
    assert (output + [x])[..|output|] == output;
  }

  /** `Sequence::decode`: the output digits as a decimal number, below
      10000 for the four output digits. */
  function Decode(sequence: Sequence): (r: Option<nat>)
    requires |sequence.output| == 4
    ensures r.Some? ==> r.value < 10000
  {
    match Lookup(sequence.examples)
    case None => None
    case Some(t) =>
      match Digits(t, sequence.output)
      case None => None
      case Some(digits) =>
        DecimalBound(digits);
        Some(Decimal(digits))
  }

  // ---------------------------------------------------------------------
  // part1 and part2

  /** `matches!(count_ones, 2 | 3 | 4 | 7)`: the digits with a segment
      count of their own. */
  predicate Easy(n: nat) {
    n == 2 || n == 3 || n == 4 || n == 7
  }

  /** What part 1 counts is what part 2 reads as 1, 4, 7 or 8: an output
      pattern has 2, 3, 4 or 7 segments exactly when it decodes to one of
      those digits. */
  lemma EasyDigits(t: Table, pattern: Segments, d: nat)
    requires IsLookup(t) && Digit(t, pattern) == Some(d)
    ensures Easy(CountOnes(pattern)) <==> d == 1 || d == 4 || d == 7 || d == 8
  {
    assert CountOnes(Eight) == 7;
  }

  /** The number of output patterns with 2, 3, 4 or 7 segments. */
  function EasyCount(output: seq<Segments>): (r: nat)
    ensures r <= |output|
  {
    if output == [] then 0
    else EasyCount(output[..|output| - 1]) + (if Easy(CountOnes(output[|output| - 1])) then 1 else 0)
  }

  /** The number of 1, 4, 7 and 8 digits. */
  function EasyDigitCount(digits: seq<nat>): nat
  {
    if digits == [] then 0
    else
      var d := digits[|digits| - 1];
      EasyDigitCount(digits[..|digits| - 1]) + (if d == 1 || d == 4 || d == 7 || d == 8 then 1 else 0)
  }

  /** On a display that decodes, part 1's count is the number of 1, 4, 7
      and 8 digits among the decoded output. */
  lemma {:induction false} EasyCountDigits(t: Table, output: seq<Segments>, digits: seq<nat>)
    requires IsLookup(t) && Digits(t, output) == Some(digits)
    ensures EasyCount(output) == EasyDigitCount(digits)
  {
    if output != [] {
      var n := |output| - 1;
      DigitsInit(t, output, digits);
      EasyDigits(t, output[n], digits[n]);
      EasyCountDigits(t, output[..n], digits[..n]);
    }
  }

  /** The digits of all but the last pattern are all but the last digit. */
  lemma DigitsInit(t: Table, output: seq<Segments>, digits: seq<nat>)
    requires Digits(t, output) == Some(digits) && output != []
    ensures Digits(t, output[..|output| - 1]) == Some(digits[..|output| - 1])
    ensures Digit(t, output[|output| - 1]) == Some(digits[|output| - 1])
  {
    var n := |output| - 1;
    var init := Digits(t, output[..n]);
    assert init.Some?;
    assert init.value == digits[..n] by {
      forall i | 0 <= i < n ensures init.value[i] == digits[i] {
        assert output[..n][i] == output[i];
      }
    }
  }

  /** `part1`: the easy output patterns over all displays. */
  function Part1(sequences: seq<Sequence>): (r: nat)
  {
    if sequences == [] then 0
    else Part1(sequences[..|sequences| - 1]) + EasyCount(sequences[|sequences| - 1].output)
  }

  /** Every display has four output digits, as `parse_input` builds them. */
  predicate FourDigits(sequences: seq<Sequence>) {
    forall i :: 0 <= i < |sequences| ==> |sequences[i].output| == 4
  }

  /** Part 1 counts at most the four output digits of each display. */
  lemma {:induction false} Part1Bound(sequences: seq<Sequence>)
    requires FourDigits(sequences)
    ensures Part1(sequences) <= 4 * |sequences|
  {
    if sequences != [] {
      Part1Bound(sequences[..|sequences| - 1]);
    }
  }

  /** `part2`: the sum of the decoded outputs, `None` where a display does
      not decode; each display adds at most 9999. */
  function Part2(sequences: seq<Sequence>): (r: Option<nat>)
    requires FourDigits(sequences)
    ensures r.Some? ==> r.value <= 9999 * |sequences|
  {
    if sequences == [] then Some(0)
    else
      var n := |sequences| - 1;
      var init := sequences[..n];
      assert forall i :: 0 <= i < n ==> init[i] == sequences[i];
      var total := Part2(init);
      var v := Decode(sequences[n]);
      if total.None? || v.None? then None
      else
        assert 9999 * |sequences| == 9999 * n + 9999;
        Some(total.value + v.value)
  }

  // ---------------------------------------------------------------------
  // parse_input

  /** Every word through `str_to_segment`. */
  function SegmentsOf(words: seq<string>): (r: Option<seq<Segments>>)
    ensures r.Some? ==> |r.value| == |words| && forall i :: 0 <= i < |words| ==> Segment(words[i]) == Some(r.value[i])
    ensures r.None? <==> exists i :: 0 <= i < |words| && Segment(words[i]).None?
  {
    if words == [] then Some([])
    else
      var init := words[..|words| - 1];
      assert forall i :: 0 <= i < |init| ==> init[i] == words[i];
      match (SegmentsOf(init), Segment(words[|words| - 1]))
      case (Some(xs), Some(x)) => Some(xs + [x])
      case (None, _) => None
      case (_, None) => None
  }

  /** `map(str::trim)`. */
  function TrimAll(words: seq<string>): (r: seq<string>)
    ensures |r| == |words| && forall i :: 0 <= i < |words| ==> r[i] == Trim(words[i])
  {
    if words == [] then [] else TrimAll(words[..|words| - 1]) + [Trim(words[|words| - 1])]
  }

  /** The patterns of the text before `|`: every word, empty ones
      included. */
  function Examples(before: string): Option<seq<Segments>>
  {
    SegmentsOf(TrimAll(Split(before, ' ')))
  }

  /** The patterns of the text after `|`: the non-empty words. */
  function Outputs(after: string): Option<seq<Segments>>
  {
    SegmentsOf(NonEmpty(TrimAll(Split(after, ' '))))
  }

  /** One line of the input: the patterns seen before `|` (every word,
      empty ones included) and the first four non-empty words after it;
      `None` where the source panics (no `|`, a pattern failing the length
      check, fewer than four outputs). */
  function ParseLine(line: string): (r: Option<Sequence>)
    ensures r.Some? ==> |r.value.output| == 4
  {
    match SplitOnce(line, "|")
    case None => None
    case Some((before, after)) =>
      match (Examples(before), Outputs(after))
      case (Some(examples), Some(output)) =>
        if |output| < 4 then None else Some(Sequence(examples, output[..4]))
      case _ => None
  }

  /** A parsed line is the text before its first `|`, read as patterns,
      and the first four patterns of the text after it. */
  lemma ParseLineSound(line: string)
    requires ParseLine(line).Some?
    ensures exists before, after ::
      (line == before + "|" + after && '|' !in before
       && Examples(before) == Some(ParseLine(line).value.examples)
       && Outputs(after).Some? && |Outputs(after).value| >= 4
       && ParseLine(line).value.output == Outputs(after).value[..4])
  {
    SplitOnceBefore(line, '|');
  }

  /** The other direction: a line whose text before its first `|` reads
      as patterns and whose text after it has at least four patterns
      always parses, to those patterns and the first four outputs. */
  lemma ParseLineParses(before: string, after: string)
    requires '|' !in before && Examples(before).Some?
    requires Outputs(after).Some? && |Outputs(after).value| >= 4
    ensures ParseLine(before + "|" + after) == Some(Sequence(Examples(before).value, Outputs(after).value[..4]))
  {
    SplitOnceFirst(before, '|', after);
  }

  /** `parse_input`: one display per line; it parses exactly when every
      line does. */
  function ParseInput(lines: seq<string>): (r: Option<seq<Sequence>>)
    ensures r.Some? <==> forall i :: 0 <= i < |lines| ==> ParseLine(lines[i]).Some?
    ensures r.Some? ==> (|r.value| == |lines|
      && forall i :: 0 <= i < |lines| ==> ParseLine(lines[i]) == Some(r.value[i]))
    ensures r.Some? ==> FourDigits(r.value)
  {
    if forall i | 0 <= i < |lines| :: ParseLine(lines[i]).Some? then
      Some(seq(|lines|, i requires 0 <= i < |lines| => ParseLine(lines[i]).value))
    else None
  }

  // ---------------------------------------------------------------------
  // Examples

  /** No two digits share a pattern. */
  predicate AllDifferent(t: Table) {
    forall d, e :: 0 <= d < e < 10 ==> Entry(t, d) != Entry(t, e)
  }

  /** In a table of ten different patterns each digit's pattern reads as
      that digit. */
  lemma ReadsItself(t: Table, d: nat)
    requires AllDifferent(t) && d < 10
    ensures Digit(t, Entry(t, d)) == Some(d)
  {
  }

  /** With the wires in their places the table of the ten digits meets
      every rule `decode` applies, and each digit reads as itself. */
  lemma CanonicalWiring(d: nat)
    requires d < 10
    ensures var t := Table(0x77, 0x24, 0x5D, 0x6D, 0x2E, 0x6B, 0x7B, 0x25, 0x7F, 0x6F);
            IsLookup(t) && Digit(t, Entry(t, d)) == Some(d)
  {
    var t := Table(0x77, 0x24, 0x5D, 0x6D, 0x2E, 0x6B, 0x7B, 0x25, 0x7F, 0x6F);
    assert CountOnes(0x77) == 6 && CountOnes(0x24) == 2 && CountOnes(0x5D) == 5 && CountOnes(0x6D) == 5;
    assert CountOnes(0x2E) == 4 && CountOnes(0x6B) == 5 && CountOnes(0x7B) == 6 && CountOnes(0x25) == 3;
    assert CountOnes(0x6F) == 6;
    ReadsItself(t, d);
  }

  /** The one-line example of the puzzle, "acedgfb cdfbe gcdfa fbcad dab
      cefabd cdfgeb eafb cagedb ab | cdfeb fcadb cdfeb cdbaf", as bit
      patterns, with the table of its ten digits given by hand: that table
      meets every rule of `decode`, the output reads 5353 through it, and
      none of its output digits is easy. */
  lemma ExampleLine()
    ensures var t := Table(0x5F, 0x03, 0x6D, 0x2F, 0x33, 0x3E, 0x7E, 0x0B, 0x7F, 0x3F);
            var output: seq<Segments> := [0x3E, 0x2F, 0x3E, 0x2F];
            IsLookup(t) && Digits(t, output) == Some([5, 3, 5, 3]) && Decimal([5, 3, 5, 3]) == 5353 && EasyCount(output) == 0
  {
    var t := Table(0x5F, 0x03, 0x6D, 0x2F, 0x33, 0x3E, 0x7E, 0x0B, 0x7F, 0x3F);
    var output: seq<Segments> := [0x3E, 0x2F, 0x3E, 0x2F];
    ExampleTable(t);
    ExampleDigits(t);
    var o1: seq<Segments>, o2: seq<Segments>, o3: seq<Segments> := [0x3E], [0x3E, 0x2F], [0x3E, 0x2F, 0x3E];
    assert o1 == [] + [0x3E] && o2 == o1 + [0x2F] && o3 == o2 + [0x3E] && output == o3 + [0x2F];
    DigitsSnoc(t, [], 0x3E);
    DigitsSnoc(t, o1, 0x2F);
    DigitsSnoc(t, o2, 0x3E);
    DigitsSnoc(t, o3, 0x2F);
    assert [] + [5] == [5] && [5] + [3] == [5, 3] && [5, 3] + [5] == [5, 3, 5] && [5, 3, 5] + [3] == [5, 3, 5, 3];
    ExampleDecimal();
    ExampleEasy(output);
  }

  lemma ExampleTable(t: Table)
    requires t == Table(0x5F, 0x03, 0x6D, 0x2F, 0x33, 0x3E, 0x7E, 0x0B, 0x7F, 0x3F)
    ensures IsLookup(t)
  {
    assert UniquesOk(0x03, 0x33, 0x0B) by {
      assert CountOnes(0x03) == 2;
      assert CountOnes(0x33) == 4;
      assert CountOnes(0x0B) == 3;
    }
    assert SixesOk(0x5F, 0x7E, 0x3F, 0x03, 0x33) by {
      assert CountOnes(0x5F) == 6;
      assert CountOnes(0x7E) == 6;
      assert CountOnes(0x3F) == 6;
    }
    assert FivesOk(0x6D, 0x2F, 0x3E, 0x03, 0x7E) by {
      assert CountOnes(0x6D) == 5;
      assert CountOnes(0x2F) == 5;
      assert CountOnes(0x3E) == 5;
    }
  }

  lemma ExampleDigits(t: Table)
    requires t == Table(0x5F, 0x03, 0x6D, 0x2F, 0x33, 0x3E, 0x7E, 0x0B, 0x7F, 0x3F)
    ensures Digit(t, 0x3E) == Some(5) && Digit(t, 0x2F) == Some(3)
  {
    assert DigitFrom(t, 0x3E, 5) == Some(5);
    assert DigitFrom(t, 0x3E, 4) == Some(5);
    assert DigitFrom(t, 0x3E, 3) == Some(5);
    assert DigitFrom(t, 0x3E, 2) == Some(5);
    assert DigitFrom(t, 0x3E, 1) == Some(5);
    assert DigitFrom(t, 0x2F, 3) == Some(3);
    assert DigitFrom(t, 0x2F, 2) == Some(3);
    assert DigitFrom(t, 0x2F, 1) == Some(3);
  }

  lemma ExampleDecimal()
    ensures Decimal([5, 3, 5, 3]) == 5353
  {
    assert [5, 3, 5, 3][..3] == [5, 3, 5] && [5, 3, 5][..2] == [5, 3] && [5, 3][..1] == [5];
    assert Decimal([5]) == 5;
    assert Decimal([5, 3]) == 53;
    assert Decimal([5, 3, 5]) == 535;
  }

  lemma ExampleEasy(output: seq<Segments>)
    requires output == [0x3E, 0x2F, 0x3E, 0x2F]
    ensures EasyCount(output) == 0
  {
    assert CountOnes(0x3E) == 5 && CountOnes(0x2F) == 5;
    var o1: seq<Segments>, o2: seq<Segments>, o3: seq<Segments> := [0x3E], [0x3E, 0x2F], [0x3E, 0x2F, 0x3E];
    assert o1[..0] == [] && o2[..1] == o1 && o3[..2] == o2 && output[..3] == o3;
    assert EasyCount(o1) == 0;
    assert EasyCount(o2) == 0;
    assert EasyCount(o3) == 0;
  }
}
