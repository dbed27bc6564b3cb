/** Day 5, Hydrothermal Venture: counting the grid points covered by at
    least two vent lines. */
module Day5 {
  import opened Common

  datatype Line = Line(startX: nat, startY: nat, endX: nat, endY: nat)

  function XDiff(l: Line): (d: nat)
    ensures d == Abs(l.startX - l.endX)
  {
    Max(l.startX, l.endX) - Min(l.startX, l.endX)
  }

  function YDiff(l: Line): (d: nat)
    ensures d == Abs(l.startY - l.endY)
  {
    Max(l.startY, l.endY) - Min(l.startY, l.endY)
  }

  function Length(l: Line): (d: nat)
    ensures d >= XDiff(l) && d >= YDiff(l) && (d == XDiff(l) || d == YDiff(l))
  {
    Max(XDiff(l), YDiff(l))
  }

  /** `idx * diff / length`, the offset of point `idx` along one axis;
      all three are unsigned, so the division rounds down. */
  function Offset(idx: nat, diff: nat, len: nat): (o: nat)
    requires 0 < len && idx <= len && diff <= len
    ensures o <= diff
    ensures idx == 0 ==> o == 0
    ensures idx == len ==> o == diff
    ensures diff == len ==> o == idx
    ensures diff == 0 ==> o == 0
  {
    MulMono(idx, len, diff);
    DivMono(idx * diff, len * diff, len);
    MulDivCancel(diff, len);
    MulDivCancel(idx, len);
    idx * diff / len
  }

  /** `point(idx)`: the point `idx` steps along the line, each coordinate
      moving its offset toward the end. */
  function Point(l: Line, idx: nat): (p: (nat, nat))
    requires Length(l) > 0 && idx <= Length(l)
    ensures Min(l.startX, l.endX) <= p.0 <= Max(l.startX, l.endX)
    ensures Min(l.startY, l.endY) <= p.1 <= Max(l.startY, l.endY)
  {
    var xOffset := Offset(idx, XDiff(l), Length(l));
    var yOffset := Offset(idx, YDiff(l), Length(l));
    (if l.startX > l.endX then l.startX - xOffset else l.startX + xOffset,
     if l.startY > l.endY then l.startY - yOffset else l.startY + yOffset)
  }

  function Step(from: nat, to: nat): int
  {
    if from < to then 1 else if from > to then -1 else 0
  }

  predicate AxisOrDiagonal(l: Line) {
    l.startX == l.endX || l.startY == l.endY || XDiff(l) == YDiff(l)
  }

  /** On a horizontal, vertical or 45-degree line, point `idx` is the start
      moved `idx` unit steps toward the end; so `point(0)` is the start and
      `point(length)` the end. */
  lemma PointOnLine(l: Line, idx: nat)
    requires Length(l) > 0 && idx <= Length(l) && AxisOrDiagonal(l)
    ensures Point(l, idx).0 == l.startX + idx * Step(l.startX, l.endX)
    ensures Point(l, idx).1 == l.startY + idx * Step(l.startY, l.endY)
    ensures Point(l, 0) == (l.startX, l.startY)
    ensures Point(l, Length(l)) == (l.endX, l.endY)
  {
  }

  /** The points of a line, `point(0)` to `point(length)`. */
  function Points(l: Line): (ps: seq<(nat, nat)>)
    requires Length(l) > 0
    ensures |ps| == Length(l) + 1
    ensures forall i :: 0 <= i < |ps| ==> ps[i] == Point(l, i)
  {
    seq(Length(l) + 1, i requires 0 <= i <= Length(l) => Point(l, i))
  }

  /** The lines `both` looks at: with `filter`, horizontal and vertical
      ones only. */
  predicate Selected(l: Line, filter: bool) {
    l.startX == l.endX || l.startY == l.endY || !filter
  }

  predicate Drawable(lines: seq<Line>, filter: bool) {
    forall i :: 0 <= i < |lines| && Selected(lines[i], filter) ==> Length(lines[i]) > 0
  }

  /** Every point visited, line after line, in the order of `flat_map`. */
  function Visits(lines: seq<Line>, filter: bool): seq<(nat, nat)>
    requires Drawable(lines, filter)
  {
    if lines == [] then []
    else
      var init := lines[..|lines| - 1];
      var last := lines[|lines| - 1];
      Visits(init, filter) + (if Selected(last, filter) then Points(last) else [])
  }

  /** The points visited at least twice. */
  function Overlaps(visits: seq<(nat, nat)>): set<(nat, nat)>
  {
    set p | p in multiset(visits) && multiset(visits)[p] >= 2
  }

  /** The map of `both` after visiting `seen`: a point is a key once
      visited, and its value is `true` once visited again. */
  ghost predicate Tracks(acc: map<(nat, nat), bool>, seen: seq<(nat, nat)>) {
    acc == Expected(seen)
  }

  /** Every point visited, mapped to whether it was visited at least twice. */
  ghost function Expected(seen: seq<(nat, nat)>): map<(nat, nat), bool>
  {
    map p | p in multiset(seen) :: multiset(seen)[p] >= 2
  }

  /** `entry(next).and_modify(|v| *v = true).or_insert(false)` */
  function Record(acc: map<(nat, nat), bool>, next: (nat, nat)): (r: map<(nat, nat), bool>)
  {
    if next in acc then acc[next := true] else acc[next := false]
  }

  lemma RecordTracks(acc: map<(nat, nat), bool>, seen: seq<(nat, nat)>, next: (nat, nat))
    requires Tracks(acc, seen)
    ensures Tracks(Record(acc, next), seen + [next])
  {
    assert multiset(seen + [next]) == multiset(seen) + multiset{next};
    assert Record(acc, next) == Expected(seen + [next]);
  }

  /** One more point of a line recorded. */
  lemma RecordStep(acc: map<(nat, nat), bool>, seen0: seq<(nat, nat)>, line: Line, k: nat)
    requires Length(line) > 0 && k <= Length(line) && Tracks(acc, seen0 + Points(line)[..k])
    ensures Tracks(Record(acc, Point(line, k)), seen0 + Points(line)[..k + 1])
  {
    var ps := Points(line);
    RecordTracks(acc, seen0 + ps[..k], ps[k]);
    assert seen0 + ps[..k + 1] == seen0 + ps[..k] + [ps[k]];
  }

  /** The inner loop of `both`: every point of one line goes into the
      map. */
  method RecordLine(acc0: map<(nat, nat), bool>, ghost seen0: seq<(nat, nat)>, line: Line)
    returns (acc: map<(nat, nat), bool>)
    requires Length(line) > 0 && Tracks(acc0, seen0)
    ensures Tracks(acc, seen0 + Points(line))
  {
    acc := acc0;
    var maxDiff := Length(line);
    var offset := 0;
    assert Points(line)[..0] == [] && seen0 + [] == seen0;
    while offset <= maxDiff
      invariant 0 <= offset <= maxDiff + 1
      invariant Tracks(acc, seen0 + Points(line)[..offset])
    {
      var next := Point(line, offset);
      RecordStep(acc, seen0, line, offset);
      acc := Record(acc, next);
      offset := offset + 1;
    }
    assert Points(line)[..offset] == Points(line);
  }

  /** The keys whose value is `true`. */
  function TrueKeys(acc: map<(nat, nat), bool>): set<(nat, nat)>
  {
    set p | p in acc && acc[p]
  }

  lemma TrueEntries(acc: map<(nat, nat), bool>, seen: seq<(nat, nat)>)
    requires Tracks(acc, seen)
    ensures TrueKeys(acc) == Overlaps(seen)
  {
  }

  /** `both`: the answer is the number of `true` entries. */
  method Both(lines: seq<Line>, filter: bool) returns (count: nat)
    requires Drawable(lines, filter)
    ensures count == |Overlaps(Visits(lines, filter))|
  {
    var acc: map<(nat, nat), bool> := map[];
    ghost var seen: seq<(nat, nat)> := [];
    var i := 0;
    while i < |lines|
      invariant 0 <= i <= |lines|
      invariant Drawable(lines[..i], filter) && seen == Visits(lines[..i], filter)
      invariant Tracks(acc, seen)
    {
      var line := lines[i];
      VisitsStep(lines, i, filter);
      if Selected(line, filter) {
        acc := RecordLine(acc, seen, line);
        seen := seen + Points(line);
      }
      i := i + 1;
    }
    assert lines[..i] == lines;
    count := |TrueKeys(acc)|;
    TrueEntries(acc, seen);
  }

  lemma VisitsStep(lines: seq<Line>, i: nat, filter: bool)
    requires i < |lines| && Drawable(lines, filter)
    ensures Drawable(lines[..i], filter) && Drawable(lines[..i + 1], filter)
    ensures Selected(lines[i], filter) ==> Length(lines[i]) > 0
    ensures Visits(lines[..i + 1], filter)
         == Visits(lines[..i], filter) + (if Selected(lines[i], filter) then Points(lines[i]) else [])
  {
    assert lines[..i + 1][..i] == lines[..i];
  }

  // ---------------------------------------------------------------------
  // Parsing

  /** `x,y`: the first two comma-separated pieces parsed, any further
      piece ignored. */
  function ParsePair(s: string): (r: Option<(nat, nat)>)
    ensures r.Some? <==> (|Split(s, ',')| >= 2
      && ParseNat(Split(s, ',')[0]).Some? && ParseNat(Split(s, ',')[1]).Some?)
    ensures r.Some? ==>
      (ParseNat(Split(s, ',')[0]) == Some(r.value.0) && ParseNat(Split(s, ',')[1]) == Some(r.value.1))
  {
    var parts := Split(s, ',');
    if |parts| < 2 then None
    else
      match (ParseNat(parts[0]), ParseNat(parts[1]))
      case (Some(x), Some(y)) => Some((x, y))
      case _ => None
  }

  /** The pieces of a line around its first two ` -> `: the text before
      the first, the text up to the second (or the end), and the rest. */
  function Pieces(s: string): (r: Option<(string, string, string)>)
    ensures r.None? <==> SplitOnce(s, " -> ").None?
    ensures r.Some? ==> s == r.value.0 + " -> " + r.value.1 + r.value.2
  {
    match SplitOnce(s, " -> ")
    case None => None
    case Some((a, rest)) =>
      match SplitOnce(rest, " -> ")
      case None =>
        assert rest == rest + [];
        Regroup(s, a, " -> ", rest, rest, []);
        Some((a, rest, []))
      case Some((b, mid)) =>
        assert b + (" -> " + mid) == b + " -> " + mid;
        Regroup(s, a, " -> ", rest, b, " -> " + mid);
        Some((a, b, " -> " + mid))
  }

  /** Text split at a separator, its second part split again, put back together. */
  lemma Regroup(s: string, a: string, sep: string, rest: string, b: string, tail: string)
    requires s == a + sep + rest
    requires rest == b + tail
    ensures s == a + sep + b + tail
  {
    assert a + sep + (b + tail) == a + sep + b + tail;
  }

  /** One line `x1,y1 -> x2,y2`; the source takes the first two pieces of
      each split and panics on anything it cannot parse. */
  function ParseLine(s: string): (r: Option<Line>)
    ensures r.Some? ==>
      (exists a, b, tail :: s == a + " -> " + b + tail
         && ParsePair(a) == Some((r.value.startX, r.value.startY))
         && ParsePair(b) == Some((r.value.endX, r.value.endY)))
  {
    match Pieces(s)
    case None => None
    case Some((a, b, _)) =>
      match (ParsePair(a), ParsePair(b))
      case (Some((x1, y1)), Some((x2, y2))) => Some(Line(x1, y1, x2, y2))
      case _ => None
  }

  /** The other direction: two pairs without spaces around ` -> ` always
      parse, to the line between them. */
  lemma ParseLineParses(a: string, b: string)
    requires ' ' !in a && ' ' !in b && ParsePair(a).Some? && ParsePair(b).Some?
    ensures ParseLine(a + " -> " + b)
         == Some(Line(ParsePair(a).value.0, ParsePair(a).value.1, ParsePair(b).value.0, ParsePair(b).value.1))
  {
    SplitOnceAt(a, " -> ", b);
    SplitOnceAbsent(b, " -> ");
  }

  /** The text `x1,y1 -> x2,y2` of a line. */
  function ShowLine(l: Line): string
  {
    Join(ShowNats([l.startX, l.startY]), ',') + " -> " + Join(ShowNats([l.endX, l.endY]), ',')
  }

  /** Every line written as `x1,y1 -> x2,y2` parses back to itself. */
  lemma ParseLineRoundTrip(l: Line)
    ensures ParseLine(ShowLine(l)) == Some(l)
  {
    var a, b := ShowNats([l.startX, l.startY]), ShowNats([l.endX, l.endY]);
    SplitShowNats([l.startX, l.startY], ',');
    SplitShowNats([l.endX, l.endY], ',');
    ShowIntChars(l.startX, ' ');
    ShowIntChars(l.startY, ' ');
    ShowIntChars(l.endX, ' ');
    ShowIntChars(l.endY, ' ');
    ParseShowNat(l.startX);
    ParseShowNat(l.startY);
    ParseShowNat(l.endX);
    ParseShowNat(l.endY);
    assert Join(a, ',') == a[0] + [','] + a[1];
    assert Join(b, ',') == b[0] + [','] + b[1];
    ParseLineParses(Join(a, ','), Join(b, ','));
  }
}
