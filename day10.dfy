/** Day 10, Syntax Scoring: lines of brackets are checked with a stack;
    a line is corrupted at the first closing bracket that does not match
    the innermost open one, otherwise it is incomplete and the open
    brackets left on the stack say how to complete it. */
module Day10 {
  import opened Common

  datatype Delimiter = Parenthesis | Bracket | Brace | AngleBracket

  datatype Side = Open(d: Delimiter) | Close(d: Delimiter)

  /** `score1`: the syntax error score of an unexpected closing bracket. */
  function Score1(d: Delimiter): (r: nat)
    ensures r in {3, 57, 1197, 25137}
  {
    match d
    case Parenthesis => 3
    case Bracket => 57
    case Brace => 1197
    case AngleBracket => 25137
  }

  /** `score2`: the completion score of a missing closing bracket; each
      delimiter has its own base-5 digit. */
  function Score2(d: Delimiter): (r: nat)
    ensures 1 <= r <= 4
  {
    match d
    case Parenthesis => 1
    case Bracket => 2
    case Brace => 3
    case AngleBracket => 4
  }

  /** Each delimiter has its own completion digit. */
  lemma Score2Injective(d: Delimiter, e: Delimiter)
    ensures Score2(d) == Score2(e) <==> d == e
  {
  }

  // ---------------------------------------------------------------------
  // Parsing

  /** The character that `parse_input` reads as `s`. */
  function SideChar(s: Side): char
  {
    match s
    case Open(Parenthesis) => '('
    case Open(Bracket) => '['
    case Open(Brace) => '{'
    case Open(AngleBracket) => '<'
    case Close(Parenthesis) => ')'
    case Close(Bracket) => ']'
    case Close(Brace) => '}'
    case Close(AngleBracket) => '>'
  }

  /** One character of a line; any other character is dropped. */
  function ParseChar(c: char): (r: Option<Side>)
    ensures r.Some? ==> SideChar(r.value) == c
    ensures r.None? ==> c !in "([{<)]}>"
  {
    match c
    case '(' => Some(Open(Parenthesis))
    case '[' => Some(Open(Bracket))
    case '{' => Some(Open(Brace))
    case '<' => Some(Open(AngleBracket))
    case ')' => Some(Close(Parenthesis))
    case ']' => Some(Close(Bracket))
    case '}' => Some(Close(Brace))
    case '>' => Some(Close(AngleBracket))
    case _ => None
  }

  lemma ParseSideChar(s: Side)
    ensures ParseChar(SideChar(s)) == Some(s)
  {
  }

  /** `flat_map` of `ParseChar` over the characters of a line. */
  function ParseLine(line: string): (r: seq<Side>)
    ensures |r| <= |line|
  {
    if line == [] then []
    else
      var rest := ParseLine(line[..|line| - 1]);
      match ParseChar(line[|line| - 1])
      case Some(s) => rest + [s]
      case None => rest
  }

  function Render(sides: seq<Side>): (r: string)
    ensures |r| == |sides|
  {
    if sides == [] then [] else Render(sides[..|sides| - 1]) + [SideChar(sides[|sides| - 1])]
  }

  /** Parsing the rendering of a bracket sequence gives it back. */
  lemma {:induction false} ParseRender(sides: seq<Side>)
    ensures ParseLine(Render(sides)) == sides
  {
    if sides != [] {
      var r := Render(sides);
      assert r[..|r| - 1] == Render(sides[..|sides| - 1]);
      ParseRender(sides[..|sides| - 1]);
      ParseSideChar(sides[|sides| - 1]);
    }
  }

  // ---------------------------------------------------------------------
  // The stack scan

  /** How the scan of a line ends: at an unexpected closing delimiter, or
      at the end of the line with the still open delimiters (innermost
      last). */
  datatype Outcome = Corrupted(found: Delimiter) | Incomplete(stack: seq<Delimiter>)

  /** The scan as a function: an opening delimiter is pushed; a closing
      one must equal the popped top, and an empty stack (`pop` gives
      `None`) never matches. */
  function Check(sides: seq<Side>, stack: seq<Delimiter>): Outcome
  {
    if sides == [] then Incomplete(stack)
    else
      match sides[0]
      case Open(d) => Check(sides[1..], stack + [d])
      case Close(d) =>
        if stack != [] && stack[|stack| - 1] == d then Check(sides[1..], stack[..|stack| - 1])
        else Corrupted(d)
  }

  /** The per-line loop of `part1` and `part2`. */
  method ScanLine(sides: seq<Side>) returns (outcome: Outcome)
    ensures outcome == Check(sides, [])
  {
    var stack: seq<Delimiter> := [];
    var i := 0;
    while i < |sides|
      invariant 0 <= i <= |sides|
      invariant Check(sides, []) == Check(sides[i..], stack)
    {
      assert sides[i..][1..] == sides[i + 1..];
      if sides[i].Open? {
        stack := stack + [sides[i].d];
      } else if stack == [] || stack[|stack| - 1] != sides[i].d {
        return Corrupted(sides[i].d);
      } else {
        stack := stack[..|stack| - 1];
      }
      i := i + 1;
    }
    return Incomplete(stack);
  }

  /** The scan of a concatenation continues from where the scan of the
      first part stopped. */
  lemma {:induction false} CheckAppend(a: seq<Side>, b: seq<Side>, stack: seq<Delimiter>)
    ensures Check(a + b, stack) ==
      match Check(a, stack)
      case Corrupted(d) => Corrupted(d)
      case Incomplete(s) => Check(b, s)
  {
    if a != [] {
      assert (a + b)[1..] == a[1..] + b;
      match a[0]
      case Open(d) => CheckAppend(a[1..], b, stack + [d]);
      case Close(d) =>
        if stack != [] && stack[|stack| - 1] == d {
          CheckAppend(a[1..], b, stack[..|stack| - 1]);
        }
    } else {
      assert a + b == b;
    }
  }

  /** The closing delimiters for an open stack, innermost first. */
  function Closers(stack: seq<Delimiter>): (r: seq<Side>)
    ensures |r| == |stack|
  {
    if stack == [] then [] else [Close(stack[|stack| - 1])] + Closers(stack[..|stack| - 1])
  }

  lemma {:induction false} CheckClosers(stack: seq<Delimiter>)
    ensures Check(Closers(stack), stack) == Incomplete([])
  {
    if stack != [] {
      var c := Closers(stack);
      assert c[1..] == Closers(stack[..|stack| - 1]);
      CheckClosers(stack[..|stack| - 1]);
    }
  }

  /** An incomplete line followed by the closers of its stack is a
      complete, balanced line: the completion the puzzle asks for. */
  lemma Completes(sides: seq<Side>)
    requires Check(sides, []).Incomplete?
    ensures Check(sides + Closers(Check(sides, []).stack), []) == Incomplete([])
  {
    CheckAppend(sides, Closers(Check(sides, []).stack), []);
    CheckClosers(Check(sides, []).stack);
  }

  /** A corrupted line is corrupted at a closing delimiter of the line
      where the open delimiters scanned so far do not end with it. */
  lemma {:induction false} CorruptedAt(sides: seq<Side>, stack: seq<Delimiter>) returns (i: nat)
    requires Check(sides, stack).Corrupted?
    ensures i < |sides| && sides[i] == Close(Check(sides, stack).found)
    ensures Check(sides[..i], stack).Incomplete?
    ensures var s := Check(sides[..i], stack).stack; s == [] || s[|s| - 1] != sides[i].d
  {
    var d := sides[0].d;
    if sides[0].Open? || (stack != [] && stack[|stack| - 1] == d) {
      var next := if sides[0].Open? then stack + [d] else stack[..|stack| - 1];
      var j := CorruptedAt(sides[1..], next);
      i := j + 1;
      assert sides[..i][1..] == sides[1..][..j];
    } else {
      i := 0;
    }
  }

  // ---------------------------------------------------------------------
  // Scores

  /** Part 1 score of one line. */
  function SyntaxScore(o: Outcome): (r: nat)
    ensures r in {0, 3, 57, 1197, 25137}
    ensures r == 0 <==> o.Incomplete?
  {
    match o
    case Corrupted(d) => Score1(d)
    case Incomplete(_) => 0
  }

  /** The `fold(0, |acc, delim| acc * 5 + delim.score2())` over the
      delimiters in the order given. */
  function FoldScore(acc: nat, ds: seq<Delimiter>): nat
    decreases |ds|
  {
    if ds == [] then acc else FoldScore(acc * 5 + Score2(ds[0]), ds[1..])
  }

  /** The completion score: the stack read from the top. */
  function CompletionScore(stack: seq<Delimiter>): nat
  {
    FoldScore(0, Reverse(stack))
  }

  /** The score as a base-5 number whose least significant digit is the
      bottom of the stack. */
  function Digits(stack: seq<Delimiter>): nat
  {
    if stack == [] then 0 else Score2(stack[0]) + 5 * Digits(stack[1..])
  }

  lemma {:induction false} FoldScoreSnoc(acc: nat, ds: seq<Delimiter>, d: Delimiter)
    ensures FoldScore(acc, ds + [d]) == FoldScore(acc, ds) * 5 + Score2(d)
    decreases |ds|
  {
    if ds != [] {
      assert (ds + [d])[1..] == ds[1..] + [d];
      FoldScoreSnoc(acc * 5 + Score2(ds[0]), ds[1..], d);
    }
  }

  lemma {:induction false} CompletionDigits(stack: seq<Delimiter>)
    ensures CompletionScore(stack) == Digits(stack)
  {
    if stack != [] {
      CompletionDigits(stack[1..]);
      assert Reverse(stack) == Reverse(stack[1..]) + [stack[0]];
      FoldScoreSnoc(0, Reverse(stack[1..]), stack[0]);
    }
  }

  /** A completion score is 0 exactly for an empty stack, which is why
      `part2` drops the zero scores. */
  lemma CompletionZero(stack: seq<Delimiter>)
    ensures CompletionScore(stack) == 0 <==> stack == []
  {
    CompletionDigits(stack);
  }

  /** Different stacks have different completion scores. */
  lemma {:induction false} CompletionInjective(a: seq<Delimiter>, b: seq<Delimiter>)
    requires CompletionScore(a) == CompletionScore(b)
    ensures a == b
  {
    CompletionDigits(a);
    CompletionDigits(b);
    DigitsInjective(a, b);
  }

  lemma {:induction false} DigitsInjective(a: seq<Delimiter>, b: seq<Delimiter>)
    requires Digits(a) == Digits(b)
    ensures a == b
  {
    if a != [] && b != [] {
      assert Digits(a) % 5 == Score2(a[0]) % 5;
      assert Digits(b) % 5 == Score2(b[0]) % 5;
      Score2Injective(a[0], b[0]);
      DigitsInjective(a[1..], b[1..]);
      assert a == [a[0]] + a[1..] && b == [b[0]] + b[1..];
    }
  }

  // ---------------------------------------------------------------------
  // The two parts

  function SyntaxScores(lines: seq<string>): (r: seq<int>)
    ensures |r| == |lines|
  {
    seq(|lines|, i requires 0 <= i < |lines| => SyntaxScore(Check(ParseLine(lines[i]), [])) as int)
  }

  /** `part1`: the sum of the line scores. */
  method Part1(lines: seq<string>) returns (r: int)
    ensures r == Sum(SyntaxScores(lines))
    ensures r >= 0
  {
    r := 0;
    var i := 0;
    while i < |lines|
      invariant 0 <= i <= |lines|
      invariant r == Sum(SyntaxScores(lines)[..i])
    {
      var outcome := ScanLine(ParseLine(lines[i]));
      TakeSnoc(SyntaxScores(lines), i);
      r := r + SyntaxScore(outcome);
      i := i + 1;
    }
    assert SyntaxScores(lines)[..|lines|] == SyntaxScores(lines);
    SumNonNegative(SyntaxScores(lines));
  }

  /** The completion scores of the lines kept by `part2`, in line order:
      corrupted lines and complete lines (score 0) are dropped. */
  function Completions(lines: seq<string>): (r: seq<int>)
    ensures |r| <= |lines|
    ensures forall k :: 0 <= k < |r| ==> r[k] > 0
  {
    if lines == [] then []
    else
      var rest := Completions(lines[..|lines| - 1]);
      match Check(ParseLine(lines[|lines| - 1]), [])
      case Corrupted(_) => rest
      case Incomplete(stack) =>
        var score := CompletionScore(stack);
        if score == 0 then rest else rest + [score]
  }

  /** One more line adds its completion score, if it has a nonzero one. */
  lemma CompletionsSnoc(lines: seq<string>, i: nat, outcome: Outcome)
    requires i < |lines| && outcome == Check(ParseLine(lines[i]), [])
    ensures Completions(lines[..i + 1]) == Completions(lines[..i])
      + (if outcome.Incomplete? && CompletionScore(outcome.stack) != 0 then [CompletionScore(outcome.stack)] else [])
  {
    assert lines[..i + 1][..i] == lines[..i];
  }

  /** `part2`: the middle of the sorted completion scores; with no
      incomplete line the index panics, modelled as `None`. */
  method Part2(lines: seq<string>) returns (r: Option<int>)
    ensures r.None? <==> Completions(lines) == []
    ensures r.Some? ==> r.value == SortSeq(Completions(lines))[|Completions(lines)| / 2]
  {
    var completions: seq<int> := [];
    var i := 0;
    while i < |lines|
      invariant 0 <= i <= |lines|
      invariant completions == Completions(lines[..i])
    {
      var outcome := ScanLine(ParseLine(lines[i]));
      CompletionsSnoc(lines, i, outcome);
      if outcome.Incomplete? {
        var score := FoldScore(0, Reverse(outcome.stack));
        if score != 0 {
          completions := completions + [score];
        }
      }
      i := i + 1;
    }
    assert lines[..|lines|] == lines;
    if |completions| == 0 {
      return None;
    }
    var sorted := SortSeq(completions);
    return Some(sorted[|sorted| / 2]);
  }
}
