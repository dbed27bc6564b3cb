/**
 * Day 13: Transparent Origami. A sheet of transparent paper carries dots;
 * folding it along a vertical or horizontal line mirrors the dots beyond the
 * line onto the part before it. Coordinates are `u16`.
 */
module Day13 {
  import opened Common

  /** One more than the largest `u16`. */
  const U16Limit: nat := 0x1_0000

  datatype Dot = Dot(x: nat, y: nat)

  /** `Fold::X(x)` folds left along the vertical line `x`, `Fold::Y(y)` up along the horizontal line `y`. */
  datatype Fold = X(line: nat) | Y(line: nat)

  datatype Input = Input(dots: set<Dot>, folds: seq<Fold>)

  // ---------------------------------------------------------------------
  // parse_input

  /** `parse::<u16>().unwrap()`: `None` where the source panics. */
  function ParseU16(s: string): (r: Option<nat>)
    ensures r.Some? <==> ParseNat(s).Some? && ParseNat(s).value < U16Limit
    ensures r.Some? ==> r.value == ParseNat(s).value
  {
    match ParseNat(s)
    case Some(v) => if v < U16Limit then Some(v) else None
    case None => None
  }

  /**
   * One line of the dot section: `Some(None)` for a line without ',' (the
   * `flat_map` over `split_once` drops it), `None` where a coordinate does
   * not parse.
   */
  function ParseDot(line: string): (r: Option<Option<Dot>>)
    ensures SplitOnce(line, ",").None? ==> r == Some(None)
    ensures SplitOnce(line, ",").Some? ==>
      var halves := SplitOnce(line, ",").value;
      (r.Some? <==> ParseU16(halves.0).Some? && ParseU16(halves.1).Some?) &&
      (r.Some? ==> r.value == Some(Dot(ParseU16(halves.0).value, ParseU16(halves.1).value)))
    ensures r.Some? && r.value.Some? ==> r.value.value.x < U16Limit && r.value.value.y < U16Limit
  {
    match SplitOnce(line, ",")
    case None => Some(None)
    case Some((a, b)) =>
      match (ParseU16(a), ParseU16(b))
      case (Some(x), Some(y)) => Some(Some(Dot(x, y)))
      case _ => None
  }

  /** The dots of the dot section; `None` where any of its lines panics. */
  function ParseDots(lines: seq<string>): (r: Option<set<Dot>>)
    ensures r.Some? <==> forall i :: 0 <= i < |lines| ==> ParseDot(lines[i]).Some?
    ensures r.Some? ==> forall d :: d in r.value ==> d.x < U16Limit && d.y < U16Limit
  {
    if lines == [] then Some({})
    else
      var init := ParseDots(lines[..|lines| - 1]);
      var last := ParseDot(lines[|lines| - 1]);
      DotLinesSplit(lines, lines[..|lines| - 1]);
      if init.None? || last.None? then None
      else Some(init.value + (if last.value.Some? then {last.value.value} else {}))
  }

  /** Every line of a non-empty section parses when every line but the last does and the last does. */
  lemma DotLinesSplit(lines: seq<string>, init: seq<string>)
    requires lines != [] && init == lines[..|lines| - 1]
    ensures (forall i :: 0 <= i < |lines| ==> ParseDot(lines[i]).Some?) <==>
            (forall i :: 0 <= i < |init| ==> ParseDot(init[i]).Some?) && ParseDot(lines[|lines| - 1]).Some?
  {
    assert forall i :: 0 <= i < |lines| - 1 ==> init[i] == lines[i];
  }

  /** Every dot of the dot section is among the parsed dots. */
  lemma {:induction false} ParseDotsHas(lines: seq<string>, i: nat)
    requires ParseDots(lines).Some? && i < |lines|
    ensures ParseDot(lines[i]).Some?
    ensures ParseDot(lines[i]).value.Some? ==> ParseDot(lines[i]).value.value in ParseDots(lines).value
  {
    if i < |lines| - 1 {
      ParseDotsHas(lines[..|lines| - 1], i);
      assert lines[..|lines| - 1][i] == lines[i];
    }
  }

  /** Conversely, every parsed dot comes from a line of the dot section. */
  lemma {:induction false} ParseDotsFrom(lines: seq<string>, d: Dot)
    requires ParseDots(lines).Some? && d in ParseDots(lines).value
    ensures exists i :: 0 <= i < |lines| && ParseDot(lines[i]) == Some(Some(d))
  {
    var init := lines[..|lines| - 1];
    if ParseDot(lines[|lines| - 1]) != Some(Some(d)) {
      ParseDotsFrom(init, d);
      var i :| 0 <= i < |init| && ParseDot(init[i]) == Some(Some(d));
      assert lines[i] == init[i];
    }
  }

  /**
   * One line of the fold section: `Some(None)` for a line that does not
   * start with "fold along " or has no '='; `None` where the axis is
   * neither "x" nor "y" or the position does not parse.
   */
  function ParseFold(line: string): (r: Option<Option<Fold>>)
    ensures StripPrefix(line, "fold along ").None? ==> r == Some(None)
    ensures r.Some? && r.value.Some? ==> r.value.value.line < U16Limit
    ensures r.Some? && r.value.Some? ==>
      var rest := line[|"fold along "|..];
      SplitOnce(rest, "=").Some? && SplitOnce(rest, "=").value.0 == (if r.value.value.X? then "x" else "y")
    ensures StripPrefix(line, "fold along ").Some? && SplitOnce(StripPrefix(line, "fold along ").value, "=").None? ==>
      r == Some(None)
    ensures StripPrefix(line, "fold along ").Some? && SplitOnce(StripPrefix(line, "fold along ").value, "=").Some? ==>
      var parts := SplitOnce(StripPrefix(line, "fold along ").value, "=").value;
      (r.Some? <==> (parts.0 == "x" || parts.0 == "y") && ParseU16(parts.1).Some?) &&
      (r.Some? ==> r.value == Some(if parts.0 == "x" then X(ParseU16(parts.1).value) else Y(ParseU16(parts.1).value)))
  {
    match StripPrefix(line, "fold along ")
    case None => Some(None)
    case Some(rest) =>
      match SplitOnce(rest, "=")
      case None => Some(None)
      case Some((axis, pos)) =>
        if axis != "x" && axis != "y" then None
        else
          match ParseU16(pos)
          case None => None
          case Some(v) => Some(Some(if axis == "x" then X(v) else Y(v)))
  }

  /** The folds of the fold section, in order; `None` where any of its lines panics. */
  function ParseFolds(lines: seq<string>): (r: Option<seq<Fold>>)
    ensures r.Some? <==> forall i :: 0 <= i < |lines| ==> ParseFold(lines[i]).Some?
    ensures r.Some? ==> |r.value| <= |lines| && forall k :: 0 <= k < |r.value| ==> r.value[k].line < U16Limit
  {
    if lines == [] then Some([])
    else
      FoldLinesSplit(lines, lines[..|lines| - 1]);
      AddFold(ParseFolds(lines[..|lines| - 1]), ParseFold(lines[|lines| - 1]))
  }

  /** One more fold line after the folds so far: its fold is appended, a skipped line adds nothing. */
  function AddFold(folds: Option<seq<Fold>>, line: Option<Option<Fold>>): (r: Option<seq<Fold>>)
    ensures r.Some? <==> folds.Some? && line.Some?
  {
    match (folds, line)
    case (Some(init), Some(None)) => Some(init)
    case (Some(init), Some(Some(f))) => Some(init + [f])
    case _ => None
  }

  /** Two optional runs of folds, one after the other. */
  function JoinFolds(a: Option<seq<Fold>>, b: Option<seq<Fold>>): Option<seq<Fold>> {
    if a.Some? && b.Some? then Some(a.value + b.value) else None
  }

  lemma AddFoldJoin(a: Option<seq<Fold>>, b: Option<seq<Fold>>, line: Option<Option<Fold>>)
    ensures AddFold(JoinFolds(a, b), line) == JoinFolds(a, AddFold(b, line))
  {
    if a.Some? && b.Some? && line.Some? && line.value.Some? {
      assert a.value + b.value + [line.value.value] == a.value + (b.value + [line.value.value]);
    }
  }

  /** A single fold line gives its fold, nothing, or `None` where it panics. */
  lemma ParseFoldsSingle(line: string)
    ensures ParseFolds([line]) ==
      match ParseFold(line)
      case None => None
      case Some(None) => Some([])
      case Some(Some(f)) => Some([f])
  {
    assert [line][..0] == [];
    assert ParseFolds([line]) == AddFold(Some([]), ParseFold(line));
    if ParseFold(line).Some? && ParseFold(line).value.Some? {
      assert [] + [ParseFold(line).value.value] == [ParseFold(line).value.value];
    }
  }

  /** The parse of each fold line, position by position. */
  function ParsedFolds(lines: seq<string>): (r: seq<Option<Option<Fold>>>)
    ensures |r| == |lines| && forall i :: 0 <= i < |lines| ==> r[i] == ParseFold(lines[i])
  {
    seq(|lines|, i requires 0 <= i < |lines| => ParseFold(lines[i]))
  }

  lemma ParsedFoldsAppend(a: seq<string>, b: seq<string>)
    ensures ParsedFolds(a + b) == ParsedFolds(a) + ParsedFolds(b)
  {
    var l, r := ParsedFolds(a + b), ParsedFolds(a) + ParsedFolds(b);
    forall i | 0 <= i < |l|
      ensures l[i] == r[i]
    {
      if i < |a| {
        assert (a + b)[i] == a[i];
      } else {
        assert (a + b)[i] == b[i - |a|];
      }
    }
  }

  /** The folds gathered from per-line results, first to last. */
  function Gather(parsed: seq<Option<Option<Fold>>>): Option<seq<Fold>> {
    if parsed == [] then Some([])
    else AddFold(Gather(parsed[..|parsed| - 1]), parsed[|parsed| - 1])
  }

  lemma {:induction false} ParseFoldsGather(lines: seq<string>)
    ensures ParseFolds(lines) == Gather(ParsedFolds(lines))
  {
    if lines != [] {
      var init := lines[..|lines| - 1];
      assert ParsedFolds(lines)[..|lines| - 1] == ParsedFolds(init);
      ParseFoldsGather(init);
    }
  }

  lemma {:induction false} GatherAppend(p: seq<Option<Option<Fold>>>, q: seq<Option<Option<Fold>>>)
    ensures Gather(p + q) == JoinFolds(Gather(p), Gather(q))
    decreases |q|
  {
    if q == [] {
      assert p + q == p;
      if Gather(p).Some? {
        assert Gather(p).value + [] == Gather(p).value;
      }
    } else {
      var pq, init := p + q, q[..|q| - 1];
      assert pq[..|pq| - 1] == p + init && pq[|pq| - 1] == q[|q| - 1];
      GatherAppend(p, init);
      AddFoldJoin(Gather(p), Gather(init), q[|q| - 1]);
    }
  }

  /** The folds of two runs of lines are the folds of the first followed by those of the second. */
  lemma ParseFoldsAppend(a: seq<string>, b: seq<string>)
    ensures ParseFolds(a + b) == JoinFolds(ParseFolds(a), ParseFolds(b))
  {
    ParseFoldsGather(a + b);
    ParseFoldsGather(a);
    ParseFoldsGather(b);
    ParsedFoldsAppend(a, b);
    GatherAppend(ParsedFolds(a), ParsedFolds(b));
  }

  /** Every line of a non-empty section parses when every line but the last does and the last does. */
  lemma FoldLinesSplit(lines: seq<string>, init: seq<string>)
    requires lines != [] && init == lines[..|lines| - 1]
    ensures (forall i :: 0 <= i < |lines| ==> ParseFold(lines[i]).Some?) <==>
            (forall i :: 0 <= i < |init| ==> ParseFold(init[i]).Some?) && ParseFold(lines[|lines| - 1]).Some?
  {
    assert forall i :: 0 <= i < |lines| - 1 ==> init[i] == lines[i];
  }

  /** The index of the first blank line at or after `from`, or `|lines|` when there is none. */
  function FirstBlank(lines: seq<string>, from: nat): (k: nat)
    requires from <= |lines|
    ensures from <= k <= |lines|
    ensures k < |lines| ==> Trim(lines[k]) == []
    ensures forall i :: from <= i < k ==> Trim(lines[i]) != []
    decreases |lines| - from
  {
    if from == |lines| || Trim(lines[from]) == [] then from else FirstBlank(lines, from + 1)
  }

  /** The dot section: the lines before the first blank one, none of them blank. */
  function DotSection(lines: seq<string>): (r: seq<string>)
    ensures r == lines[..FirstBlank(lines, 0)]
    ensures forall i :: 0 <= i < |r| ==> Trim(r[i]) != []
  {
    lines[..FirstBlank(lines, 0)]
  }

  /** The fold section: the lines after the first blank one (`take_while` consumes the blank line itself). */
  function FoldSection(lines: seq<string>): (r: seq<string>)
    ensures |DotSection(lines)| < |lines| ==> lines == DotSection(lines) + [lines[|DotSection(lines)|]] + r
    ensures |DotSection(lines)| < |lines| ==> Trim(lines[|DotSection(lines)|]) == []
    ensures |DotSection(lines)| == |lines| ==> r == []
  {
    var k := FirstBlank(lines, 0);
    assert k < |lines| ==> lines == lines[..k] + [lines[k]] + lines[k + 1..];
    lines[if k < |lines| then k + 1 else k..]
  }

  /** `parse_input`: the dots of the dot section and the folds of the fold section. */
  function ParseInput(lines: seq<string>): (r: Option<Input>)
    ensures r.Some? <==> ParseDots(DotSection(lines)).Some? && ParseFolds(FoldSection(lines)).Some?
    ensures r.Some? ==> r.value.dots == ParseDots(DotSection(lines)).value
    ensures r.Some? ==> r.value.folds == ParseFolds(FoldSection(lines)).value
  {
    match (ParseDots(DotSection(lines)), ParseFolds(FoldSection(lines)))
    case (Some(dots), Some(folds)) => Some(Input(dots, folds))
    case _ => None
  }

  // ---------------------------------------------------------------------
  // apply_fold

  /** The coordinate a fold looks at. */
  function Coord(d: Dot, f: Fold): nat {
    if f.X? then d.x else d.y
  }

  /**
   * The fold can be done in `u16`: for every dot beyond the line,
   * `2 * line` fits and `2 * line - coordinate` does not underflow. Without
   * a dot beyond the line nothing is computed, so nothing can overflow.
   */
  predicate Foldable(dots: set<Dot>, f: Fold) {
    forall d :: d in dots && Coord(d, f) > f.line ==> 2 * f.line < U16Limit && Coord(d, f) <= 2 * f.line
  }

  /** The image of a dot beyond the line: `2 * line - coordinate`, the other coordinate kept. */
  function Mirror(d: Dot, f: Fold): (m: Dot)
    requires f.line < Coord(d, f) <= 2 * f.line
    ensures Coord(m, f) < f.line
  {
    if f.X? then Dot(2 * f.line - d.x, d.y) else Dot(d.x, 2 * f.line - d.y)
  }

  /**
   * The dots after the fold: those before the line stay, those beyond it
   * are mirrored, those on it are gone. Every dot left lies before the
   * line, and every dot that was before it is still there.
   */
  ghost function Folded(dots: set<Dot>, f: Fold): (r: set<Dot>)
    requires Foldable(dots, f)
    ensures forall d :: d in r ==> Coord(d, f) < f.line
    ensures forall d :: d in dots && Coord(d, f) < f.line ==> d in r
    ensures forall d :: d in dots && Coord(d, f) > f.line ==> Mirror(d, f) in r
  {
    (set d | d in dots && Coord(d, f) < f.line) + (set d | d in dots && Coord(d, f) > f.line :: Mirror(d, f))
  }

  /**
   * `apply_fold`: collects the dots beyond the line, keeps those before it
   * (`retain`), and inserts the mirror image of each collected dot.
   */
  method ApplyFold(dots: set<Dot>, fold: Fold) returns (result: set<Dot>)
    requires Foldable(dots, fold)
    ensures result == Folded(dots, fold)
  {
    var toMap: seq<Dot> := [];
    var rest := dots;
    while rest != {}
      invariant rest <= dots
      invariant forall d :: d in toMap <==> d in dots && d !in rest && Coord(d, fold) > fold.line
      decreases |rest|
    {
      var d :| d in rest;
      if Coord(d, fold) > fold.line {
        toMap := toMap + [d];
      }
      rest := rest - {d};
    }
    result := set d | d in dots && Coord(d, fold) < fold.line;
    ghost var kept := result;
    for i := 0 to |toMap|
      invariant result == kept + set k | 0 <= k < i :: Mirror(toMap[k], fold)
    {
      ghost var before := set k | 0 <= k < i :: Mirror(toMap[k], fold);
      assert (set k | 0 <= k < i + 1 :: Mirror(toMap[k], fold)) == before + {Mirror(toMap[i], fold)};
      result := result + {Mirror(toMap[i], fold)};
    }
    MirroredAll(dots, fold, toMap);
  }

  lemma MirroredAll(dots: set<Dot>, fold: Fold, toMap: seq<Dot>)
    requires Foldable(dots, fold)
    requires forall d :: d in toMap <==> d in dots && Coord(d, fold) > fold.line
    ensures (set k | 0 <= k < |toMap| :: Mirror(toMap[k], fold))
      == (set d | d in dots && Coord(d, fold) > fold.line :: Mirror(d, fold))
  {
    var a := set k | 0 <= k < |toMap| :: Mirror(toMap[k], fold);
    var b := set d | d in dots && Coord(d, fold) > fold.line :: Mirror(d, fold);
    forall m | m in b ensures m in a {
      var d :| d in dots && Coord(d, fold) > fold.line && Mirror(d, fold) == m;
      var k :| 0 <= k < |toMap| && toMap[k] == d;
    }
  }

  // ---------------------------------------------------------------------
  // Properties of a fold

  /** The image of a set of dots under `Mirror`, at most as large as the set. */
  lemma {:induction false} MirrorImageBound(beyond: set<Dot>, f: Fold)
    requires forall d :: d in beyond ==> f.line < Coord(d, f) <= 2 * f.line
    ensures |set d | d in beyond :: Mirror(d, f)| <= |beyond|
    decreases |beyond|
  {
    if beyond != {} {
      var e :| e in beyond;
      var rest := beyond - {e};
      MirrorImageBound(rest, f);
      assert (set d | d in beyond :: Mirror(d, f)) == (set d | d in rest :: Mirror(d, f)) + {Mirror(e, f)};
    }
  }

  /** Folding never increases the number of dots. */
  lemma FoldNeverGrows(dots: set<Dot>, f: Fold)
    requires Foldable(dots, f)
    ensures |Folded(dots, f)| <= |dots|
  {
    var before := set d | d in dots && Coord(d, f) < f.line;
    var beyond := set d | d in dots && Coord(d, f) > f.line;
    MirrorImageBound(beyond, f);
    assert (set d | d in beyond :: Mirror(d, f)) == (set d | d in dots && Coord(d, f) > f.line :: Mirror(d, f));
    assert before !! beyond && before + beyond <= dots;
    assert |before + beyond| == |before| + |beyond|;
    assert |before + beyond| <= |dots| by { SubsetCard(before + beyond, dots); }
  }

  lemma SubsetCard(a: set<Dot>, b: set<Dot>)
    requires a <= b
    ensures |a| <= |b|
  {
    assert b == a + (b - a);
  }

  /** A folded sheet can be folded again along the same line, and nothing changes. */
  lemma FoldIdempotent(dots: set<Dot>, f: Fold)
    requires Foldable(dots, f)
    ensures Foldable(Folded(dots, f), f)
    ensures Folded(Folded(dots, f), f) == Folded(dots, f)
  {
    var once := Folded(dots, f);
    forall d
      ensures d in Folded(once, f) <==> d in once
    {
      FoldedMembers(once, f, d);
    }
  }

  /** A dot is in the folded sheet exactly when it lies before the line and it or its mirror image was a dot. */
  lemma FoldedMembers(dots: set<Dot>, f: Fold, d: Dot)
    requires Foldable(dots, f)
    ensures d in Folded(dots, f) <==>
      Coord(d, f) < f.line && (d in dots || Reflect(d, f) in dots)
  {
    if d in Folded(dots, f) && d !in dots {
      var e :| e in dots && Coord(e, f) > f.line && Mirror(e, f) == d;
      assert Reflect(d, f) == e;
    }
    if Coord(d, f) < f.line && d !in dots && Reflect(d, f) in dots {
      assert Mirror(Reflect(d, f), f) == d;
    }
  }

  /**
   * The dot whose mirror image `d` would be: `2 * line - coordinate`, the
   * other coordinate kept (taken as a coordinate that cannot occur when
   * the line is zero or `d` lies on it).
   */
  function Reflect(d: Dot, f: Fold): (e: Dot)
    requires Coord(d, f) < f.line
    ensures Coord(e, f) > f.line
  {
    if f.X? then Dot(2 * f.line - d.x, d.y) else Dot(d.x, 2 * f.line - d.y)
  }

  /** Exchanging the axes. */
  function Swap(d: Dot): Dot {
    Dot(d.y, d.x)
  }

  function Transposed(dots: set<Dot>): (r: set<Dot>)
    ensures forall d :: d in r <==> Swap(d) in dots
  {
    assert forall d :: Swap(d) in dots ==> d == Swap(Swap(d));
    set d | d in dots :: Swap(d)
  }

  /** A sheet that folds along a horizontal line folds along the same vertical line once transposed. */
  lemma TransposedFoldable(dots: set<Dot>, line: nat)
    requires Foldable(dots, Y(line))
    ensures Foldable(Transposed(dots), X(line))
  {
    forall d | d in Transposed(dots) && Coord(d, X(line)) > line
      ensures 2 * line < U16Limit && Coord(d, X(line)) <= 2 * line
    {
      assert Swap(d) in dots;
    }
  }

  /** The fold along a horizontal line is the fold along the vertical line of the transposed sheet, transposed back. */
  lemma FoldYMirrorsX(dots: set<Dot>, line: nat)
    requires Foldable(dots, Y(line))
    ensures Foldable(Transposed(dots), X(line))
    ensures Folded(dots, Y(line)) == Transposed(Folded(Transposed(dots), X(line)))
  {
    TransposedFoldable(dots, line);
    var byY := Folded(dots, Y(line));
    var byX := Folded(Transposed(dots), X(line));
    forall d
      ensures d in byY <==> Swap(d) in byX
    {
      FoldYMember(dots, line, d);
    }
  }

  lemma FoldYMember(dots: set<Dot>, line: nat, d: Dot)
    requires Foldable(dots, Y(line)) && Foldable(Transposed(dots), X(line))
    ensures d in Folded(dots, Y(line)) <==> Swap(d) in Folded(Transposed(dots), X(line))
  {
    FoldedMembers(dots, Y(line), d);
    FoldedMembers(Transposed(dots), X(line), Swap(d));
    if d.y < line {
      assert Reflect(Swap(d), X(line)) == Swap(Reflect(d, Y(line)));
    }
  }

  // ---------------------------------------------------------------------
  // part1

  /**
   * `part1`: the number of dots after the first fold. `None` where parsing
   * panics, where there is no fold (`first().unwrap()`), or where the fold
   * overflows `u16`.
   */
  method Part1(lines: seq<string>) returns (r: Option<nat>)
    ensures ParseInput(lines).None? ==> r.None?
    ensures ParseInput(lines).Some? ==>
      var input := ParseInput(lines).value;
      (r.Some? <==> input.folds != [] && Foldable(input.dots, input.folds[0])) &&
      (r.Some? ==> r.value == |Folded(input.dots, input.folds[0])| <= |input.dots|)
  {
    var input := ParseInput(lines);
    if input.None? || input.value.folds == [] || !Foldable(input.value.dots, input.value.folds[0]) {
      return None;
    }
    var dots := ApplyFold(input.value.dots, input.value.folds[0]);
    FoldNeverGrows(input.value.dots, input.value.folds[0]);
    r := Some(|dots|);
  }

  // ---------------------------------------------------------------------
  // part2

  /** The sheet after every fold in turn; `None` where some fold overflows `u16`. */
  ghost function FoldAll(dots: set<Dot>, folds: seq<Fold>): (r: Option<set<Dot>>)
    ensures r.Some? ==> |r.value| <= |dots|
  {
    if folds == [] then Some(dots)
    else
      match FoldAll(dots, folds[..|folds| - 1])
      case None => None
      case Some(prev) =>
        var f := folds[|folds| - 1];
        if Foldable(prev, f) then FoldNeverGrows(prev, f); Some(Folded(prev, f)) else None
  }

  /** `m` is the largest x coordinate of a dot. */
  ghost predicate IsMaxX(dots: set<Dot>, m: nat) {
    (exists d :: d in dots && d.x == m) && forall d :: d in dots ==> d.x <= m
  }

  /** `m` is the largest y coordinate of a dot. */
  ghost predicate IsMaxY(dots: set<Dot>, m: nat) {
    (exists d :: d in dots && d.y == m) && forall d :: d in dots ==> d.y <= m
  }

  /** `iter().map(..).max()` for both coordinates; the source unwraps, so the set may not be empty. */
  method MaxCoords(dots: set<Dot>) returns (maxX: nat, maxY: nat)
    requires dots != {}
    ensures IsMaxX(dots, maxX) && IsMaxY(dots, maxY)
  {
    var first :| first in dots;
    maxX, maxY := first.x, first.y;
    var rest := dots - {first};
    while rest != {}
      invariant rest <= dots
      invariant exists d :: d in dots && d.x == maxX
      invariant exists d :: d in dots && d.y == maxY
      invariant forall d :: d in dots && d !in rest ==> d.x <= maxX && d.y <= maxY
      decreases |rest|
    {
      var d :| d in rest;
      maxX := Max(maxX, d.x);
      maxY := Max(maxY, d.y);
      rest := rest - {d};
    }
  }

  /** The first `n` cells of row `y`: '#' for a dot, '.' for none. */
  function Row(dots: set<Dot>, y: nat, n: nat): (s: string)
    ensures |s| == n
  {
    if n == 0 then [] else Row(dots, y, n - 1) + [if Dot(n - 1, y) in dots then '#' else '.']
  }

  /** The first `h` rows of width `w`, each followed by a newline. */
  function Picture(dots: set<Dot>, w: nat, h: nat): (s: string)
    ensures |s| == h * (w + 1)
  {
    if h == 0 then [] else Picture(dots, w, h - 1) + Row(dots, h - 1, w) + "\n"
  }

  /** The character of a picture of width `w` at column `x` of row `y`. */
  function Pixel(dots: set<Dot>, w: nat, x: nat, y: nat): char {
    if x == w then '\n' else if Dot(x, y) in dots then '#' else '.'
  }

  /** Cell `x` of a row is '#' exactly for a dot at `(x, y)`. */
  lemma {:induction false} RowAt(dots: set<Dot>, y: nat, n: nat, x: nat)
    requires x < n
    ensures Row(dots, y, n)[x] == Pixel(dots, n, x, y)
  {
    if x < n - 1 {
      RowAt(dots, y, n - 1, x);
    }
  }

  /** Row `y` of a picture starts at `y * (w + 1)`; its `w` cells are followed by a newline. */
  lemma {:induction false} PictureLayout(dots: set<Dot>, w: nat, h: nat, x: nat, y: nat)
    requires y < h && x <= w
    ensures y * (w + 1) + x < |Picture(dots, w, h)|
    ensures Picture(dots, w, h)[y * (w + 1) + x] == Pixel(dots, w, x, y)
  {
    var base := (h - 1) * (w + 1);
    var pic := Picture(dots, w, h);
    assert pic == Picture(dots, w, h - 1) + Row(dots, h - 1, w) + "\n";
    if y < h - 1 {
      PictureLayout(dots, w, h - 1, x, y);
      assert y * (w + 1) + x < base;
    } else {
      assert y * (w + 1) + x == base + x;
      if x < w {
        RowAt(dots, y, w, x);
      }
    }
  }

  /** The rendering loop of `part2`: rows `0..=maxY`, each of the cells `0..=maxX` and a newline. */
  method Render(dots: set<Dot>, maxX: nat, maxY: nat) returns (result: string)
    ensures result == Picture(dots, maxX + 1, maxY + 1)
  {
    result := "";
    for y := 0 to maxY + 1
      invariant result == Picture(dots, maxX + 1, y)
    {
      ghost var prefix := result;
      for x := 0 to maxX + 1
        invariant result == prefix + Row(dots, y, x)
      {
        if Dot(x, y) in dots {
          result := result + "#";
        } else {
          result := result + ".";
        }
      }
      result := result + "\n";
    }
  }

  /**
   * `part2`: every fold in turn, then the sheet rendered up to the largest
   * coordinates. `None` where parsing panics, where a fold overflows `u16`,
   * or where no dot is left (`max().unwrap()`).
   */
  method Part2(lines: seq<string>) returns (r: Option<string>)
    ensures ParseInput(lines).None? ==> r.None?
    ensures ParseInput(lines).Some? ==>
      var input := ParseInput(lines).value;
      var sheet := FoldAll(input.dots, input.folds);
      (r.Some? <==> sheet.Some? && sheet.value != {}) &&
      (r.Some? ==> exists maxX: nat, maxY: nat ::
         IsMaxX(sheet.value, maxX) && IsMaxY(sheet.value, maxY) && r.value == Picture(sheet.value, maxX + 1, maxY + 1))
  {
    var input := ParseInput(lines);
    if input.None? {
      return None;
    }
    var sheet := FoldSheet(input.value.dots, input.value.folds);
    if sheet.None? || sheet.value == {} {
      return None;
    }
    var dots := sheet.value;
    var maxX, maxY := MaxCoords(dots);
    var picture := Render(dots, maxX, maxY);
    r := Some(picture);
  }

  /** The `for fold in input.folds` loop of `part2`, stopping where a fold overflows. */
  method FoldSheet(start: set<Dot>, folds: seq<Fold>) returns (r: Option<set<Dot>>)
    ensures r == FoldAll(start, folds)
  {
    var dots := start;
    for i := 0 to |folds|
      invariant FoldAll(start, folds[..i]) == Some(dots)
    {
      assert folds[..i + 1][..i] == folds[..i];
      if !Foldable(dots, folds[i]) {
        NoneStays(start, folds, i + 1);
        return None;
      }
      dots := ApplyFold(dots, folds[i]);
    }
    assert folds[..|folds|] == folds;
    r := Some(dots);
  }

  /** Once a fold overflows, folding the rest of the list does too. */
  lemma {:induction false} NoneStays(dots: set<Dot>, folds: seq<Fold>, i: nat)
    requires i <= |folds| && FoldAll(dots, folds[..i]).None?
    ensures FoldAll(dots, folds).None?
    decreases |folds| - i
  {
    if i < |folds| {
      assert folds[..i + 1][..i] == folds[..i];
      NoneStays(dots, folds, i + 1);
    } else {
      assert folds[..i] == folds;
    }
  }
}
