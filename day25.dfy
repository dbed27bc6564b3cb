/** Day 25, Sea Cucumber: two herds on a wrapping grid. In each step the
    east-facing herd moves first, all at once, then the south-facing herd;
    a cucumber moves when the cell ahead of it is empty. The source keeps a
    list of the empty cells and only looks behind each of them. */
module Day25 {
  import opened Common

  /** `Spot`. */
  datatype Spot = Down | Right | Empty

  type Grid = seq<seq<Spot>>

  /** A (row, column) position, as the source's `(usize, usize)`. */
  type Cell = (nat, nat)

  predicate Rectangular(g: Grid) {
    forall r | 0 <= r < |g| :: |g[r]| == |g[0]|
  }

  predicate InGrid(g: Grid, p: Cell) {
    p.0 < |g| && p.1 < |g[p.0]|
  }

  function At(g: Grid, p: Cell): Spot
    requires InGrid(g, p)
  {
    g[p.0][p.1]
  }

  lemma ModPrev(x: nat, w: nat)
    requires x < w
    ensures (x + w - 1) % w == if x == 0 then w - 1 else x - 1
  {
    if x > 0 {
      assert x + w - 1 == w + (x - 1);
    }
  }

  lemma ModNext(x: nat, w: nat)
    requires x < w
    ensures (x + 1) % w == if x == w - 1 then 0 else x + 1
  {
  }

  /** The cell a member of `herd` would come from to reach `p`: the one on
      the left for the east-facing herd, the one above for the
      south-facing herd, wrapping around. */
  function Behind(g: Grid, herd: Spot, p: Cell): (q: Cell)
    requires Rectangular(g) && InGrid(g, p)
    ensures InGrid(g, q)
  {
    if herd == Right then
      ModPrev(p.1, |g[p.0]|);
      (p.0, (p.1 + |g[p.0]| - 1) % |g[p.0]|)
    else
      ModPrev(p.0, |g|);
      ((p.0 + |g| - 1) % |g|, p.1)
  }

  /** The cell in front of a member of `herd` at `p`; it is the cell whose
      cell behind is `p`, and the other way round. */
  function Ahead(g: Grid, herd: Spot, p: Cell): (q: Cell)
    requires Rectangular(g) && InGrid(g, p)
    ensures InGrid(g, q) && Behind(g, herd, q) == p
  {
    if herd == Right then
      ModNext(p.1, |g[p.0]|);
      ModPrev((p.1 + 1) % |g[p.0]|, |g[p.0]|);
      (p.0, (p.1 + 1) % |g[p.0]|)
    else
      ModNext(p.0, |g|);
      ModPrev((p.0 + 1) % |g|, |g|);
      ((p.0 + 1) % |g|, p.1)
  }

  lemma AheadOfBehind(g: Grid, herd: Spot, p: Cell)
    requires Rectangular(g) && InGrid(g, p)
    ensures Ahead(g, herd, Behind(g, herd, p)) == p
  {
    var q := Behind(g, herd, p);
    if herd == Right {
      ModPrev(p.1, |g[p.0]|);
      ModNext(q.1, |g[p.0]|);
    } else {
      ModPrev(p.0, |g|);
      ModNext(q.0, |g|);
    }
  }

  /** What cell `p` holds once `herd` has moved: an empty cell with a
      member of the herd behind it receives it; a member with an empty
      cell ahead leaves; all else stays. */
  function MovedAt(g: Grid, herd: Spot, p: Cell): Spot
    requires Rectangular(g) && InGrid(g, p)
  {
    if At(g, p) == Empty && At(g, Behind(g, herd, p)) == herd then herd
    else if At(g, p) == herd && At(g, Ahead(g, herd, p)) == Empty then Empty
    else At(g, p)
  }

  /** Reference move of one herd: every member whose cell ahead is empty
      moves into it, all at the same time. */
  function Moved(g: Grid, herd: Spot): (m: Grid)
    requires Rectangular(g)
    ensures |m| == |g| && Rectangular(m)
    ensures forall r | 0 <= r < |g| :: |m[r]| == |g[r]|
  {
    MovedRows(g, herd, |g|)
  }

  /** The first `n` rows of `Moved(g, herd)`. */
  function MovedRows(g: Grid, herd: Spot, n: nat): (m: Grid)
    requires Rectangular(g) && n <= |g|
    ensures |m| == n && forall r | 0 <= r < n :: |m[r]| == |g[r]|
  {
    if n == 0 then []
    else MovedRows(g, herd, n - 1) + [seq(|g[n - 1]|, c requires 0 <= c < |g[n - 1]| => MovedAt(g, herd, (n - 1, c)))]
  }

  lemma MovedRowsCell(g: Grid, herd: Spot, n: nat, p: Cell)
    requires Rectangular(g) && n <= |g| && InGrid(g, p) && p.0 < n
    ensures MovedRows(g, herd, n)[p.0][p.1] == MovedAt(g, herd, p)
  {
    if p.0 < n - 1 {
      MovedRowsCell(g, herd, n - 1, p);
    }
  }

  /** Cell `p` of `Moved(g, herd)` is `MovedAt(g, herd, p)`. */
  lemma MovedCell(g: Grid, herd: Spot, p: Cell)
    requires Rectangular(g) && InGrid(g, p)
    ensures Moved(g, herd)[p.0][p.1] == MovedAt(g, herd, p)
  {
    MovedRowsCell(g, herd, |g|, p);
  }

  /** One step: the east-facing herd, then the south-facing one. */
  function Step(g: Grid): (s: Grid)
    requires Rectangular(g)
    ensures Rectangular(s) && |s| == |g|
  {
    Moved(Moved(g, Right), Down)
  }

  function StepN(g: Grid, n: nat): (s: Grid)
    requires Rectangular(g)
    ensures Rectangular(s) && |s| == |g|
  {
    if n == 0 then g else Step(StepN(g, n - 1))
  }

  /** `SameGrid` with the cells named as pairs. */
  lemma SameCells(a: Grid, b: Grid)
    requires |a| == |b| && forall r | 0 <= r < |a| :: |a[r]| == |b[r]|
    requires forall p: Cell | InGrid(a, p) :: a[p.0][p.1] == b[p.0][p.1]
    ensures a == b
  {
    forall r: nat, c: nat | r < |a| && c < |a[r]|
      ensures a[r][c] == b[r][c]
    {
      assert InGrid(a, (r, c));
    }
    SameGrid(a, b);
  }

  /** Grids of the same shape that agree on every cell are equal. */
  lemma SameGrid(a: Grid, b: Grid)
    requires |a| == |b| && forall r | 0 <= r < |a| :: |a[r]| == |b[r]|
    requires forall r: nat, c: nat | r < |a| && c < |a[r]| :: a[r][c] == b[r][c]
    ensures a == b
  {
    forall r | 0 <= r < |a|
      ensures a[r] == b[r]
    {
      forall c | 0 <= c < |a[r]|
        ensures a[r][c] == b[r][c]
      {
        assert InGrid(a, (r, c));
      }
    }
  }

  /** Grids of the same shape that differ, differ in some cell. */
  lemma DifferentCell(a: Grid, b: Grid) returns (p: Cell)
    requires |a| == |b| && forall r | 0 <= r < |a| :: |a[r]| == |b[r]|
    requires a != b
    ensures InGrid(a, p) && InGrid(b, p) && At(a, p) != At(b, p)
  {
    if forall r: nat, c: nat | r < |a| && c < |a[r]| :: a[r][c] == b[r][c] {
      SameGrid(a, b);
    }
    var r: nat, c: nat :| r < |a| && c < |a[r]| && a[r][c] != b[r][c];
    p := (r, c);
  }

  /** A herd that moves changes the grid: some cell it moves into was
      empty. */
  lemma MovedWitness(g: Grid, herd: Spot) returns (t: Cell)
    requires Rectangular(g) && herd != Empty && Moved(g, herd) != g
    ensures InGrid(g, t) && At(g, t) == Empty && At(Moved(g, herd), t) == herd
  {
    var p := DifferentCell(Moved(g, herd), g);
    MovedCell(g, herd, p);
    if At(g, p) == Empty {
      t := p;
    } else {
      t := Ahead(g, herd, p);
      AheadOfBehind(g, herd, t);
      MovedCell(g, herd, t);
    }
  }

  /** `not_moved` holds after a step exactly when the step changes
      nothing: a cell the east-facing herd moved into is untouched by the
      south-facing herd. */
  lemma FixedIff(g: Grid)
    requires Rectangular(g)
    ensures Step(g) == g <==> Moved(g, Right) == g && Moved(Moved(g, Right), Down) == Moved(g, Right)
  {
    var e := Moved(g, Right);
    if e != g {
      var t := MovedWitness(g, Right);
      MovedCell(e, Down, t);
      assert At(Step(g), t) == Right;
    } else if Moved(e, Down) != e {
      assert Step(g) != g;
    }
  }

  // ---------------------------------------------------------------------
  // The list of empty cells

  /** `empties` lists exactly the empty cells of `g`. */
  ghost predicate Lists(empties: seq<Cell>, g: Grid) {
    && (forall i | 0 <= i < |empties| :: InGrid(g, empties[i]) && At(g, empties[i]) == Empty)
    && (forall r: nat, c: nat {:trigger (r, c) in empties} | r < |g| && c < |g[r]| && g[r][c] == Empty :: (r, c) in empties)
  }

  /** The loops over `row_idx` and `column_idx` that collect the empty
      cells before the first step. */
  method CollectEmpty(g: Grid) returns (empty: seq<Cell>)
    ensures Lists(empty, g)
  {
    empty := [];
    for r := 0 to |g|
      invariant forall i | 0 <= i < |empty| :: InGrid(g, empty[i]) && At(g, empty[i]) == Empty
      invariant forall r': nat, c: nat | r' < r && c < |g[r']| && g[r'][c] == Empty :: (r', c) in empty
    {
      for c := 0 to |g[r]|
        invariant forall i | 0 <= i < |empty| :: InGrid(g, empty[i]) && At(g, empty[i]) == Empty
        invariant forall r': nat, c': nat | r' < r && c' < |g[r']| && g[r'][c'] == Empty :: (r', c') in empty
        invariant forall c': nat | c' < c && g[r][c'] == Empty :: (r, c') in empty
      {
        if g[r][c] == Empty {
          empty := empty + [(r, c)];
        }
      }
    }
  }

  /** A planned move: from the cell behind an empty cell into it. */
  ghost predicate IsMove(g: Grid, herd: Spot, m: (Cell, Cell)) {
    && Rectangular(g) && InGrid(g, m.1) && At(g, m.1) == Empty
    && m.0 == Behind(g, herd, m.1) && At(g, m.0) == herd
  }

  /** What the list holds in place of the empty cell `t`: the cell the
      cucumber came from if one moved into `t`, else `t` itself. */
  function Vacated(g: Grid, herd: Spot, t: Cell): Cell
    requires Rectangular(g) && InGrid(g, t)
  {
    if At(g, Behind(g, herd, t)) == herd then Behind(g, herd, t) else t
  }

  ghost predicate TargetAmong(moves: seq<(Cell, Cell)>, j: nat, p: Cell)
    requires j <= |moves|
  {
    exists k | 0 <= k < j :: moves[k].1 == p
  }

  ghost predicate OriginAmong(moves: seq<(Cell, Cell)>, j: nat, p: Cell)
    requires j <= |moves|
  {
    exists k | 0 <= k < j :: moves[k].0 == p
  }

  /** Every spot of the grid, counted with multiplicity: how many of each
      herd and how many empty cells there are. */
  function Spots(g: Grid): (s: multiset<Spot>)
    ensures g != [] ==> multiset(g[0]) <= s
  {
    if g == [] then multiset{} else multiset(g[0]) + Spots(g[1..])
  }

  /** Writing `v` into one cell of a row trades that cell's spot for `v`. */
  lemma RowUpdate(row: seq<Spot>, c: nat, v: Spot)
    requires c < |row|
    ensures row[c] in multiset(row)
    ensures multiset(row[c := v]) == multiset(row) - multiset{row[c]} + multiset{v}
  {
  }

  /** Writing `v` into one cell trades that cell's spot for `v`. */
  lemma {:induction false} SpotsUpdate(g: Grid, r: nat, c: nat, v: Spot)
    requires r < |g| && c < |g[r]|
    ensures g[r][c] in Spots(g)
    ensures Spots(g[r := g[r][c := v]]) == Spots(g) - multiset{g[r][c]} + multiset{v}
  {
    var g' := g[r := g[r][c := v]];
    if r == 0 {
      assert g'[1..] == g[1..];
      RowUpdate(g[0], c, v);
    } else {
      assert g'[1..] == g[1..][r - 1 := g[r][c := v]];
      SpotsUpdate(g[1..], r - 1, c, v);
    }
  }

  /** Before move `j` is applied, its origin still holds the herd and its
      target is still empty, unless an earlier copy of the same move has
      already swapped them. */
  lemma MoveEnds(g: Grid, herd: Spot, moves: seq<(Cell, Cell)>, j: nat, board: Grid)
    requires Rectangular(g) && herd != Empty && forall k | 0 <= k < |moves| :: IsMove(g, herd, moves[k])
    requires j < |moves| && AppliedUpTo(g, herd, moves, j, board)
    ensures var (origin, target) := moves[j];
      && InGrid(board, origin) && InGrid(board, target) && origin != target
      && ((At(board, origin) == herd && At(board, target) == Empty)
          || (At(board, origin) == Empty && At(board, target) == herd))
  {
    var (origin, target) := moves[j];
    assert IsMove(g, herd, moves[j]);
    assert !TargetAmong(moves, j, origin) by {
      forall k | 0 <= k < j ensures moves[k].1 != origin {
        assert IsMove(g, herd, moves[k]);
      }
    }
    assert !OriginAmong(moves, j, target) by {
      forall k | 0 <= k < j ensures moves[k].0 != target {
        assert IsMove(g, herd, moves[k]);
      }
    }
    assert OriginAmong(moves, j, origin) <==> TargetAmong(moves, j, target) by {
      AheadOfBehind(g, herd, target);
      forall k | 0 <= k < j ensures moves[k].0 == origin <==> moves[k].1 == target {
        assert IsMove(g, herd, moves[k]);
        AheadOfBehind(g, herd, moves[k].1);
      }
    }
  }

  /** Taking `x` out and putting `y` in, then the other way round. */
  lemma TradeBack(s: multiset<Spot>, x: Spot, y: Spot)
    requires x in s
    ensures s - multiset{x} + multiset{y} - multiset{y} + multiset{x} == s
  {
  }

  /** Taking out a spot that is there and putting it back. */
  lemma PutBack(s: multiset<Spot>, x: Spot)
    requires x in s
    ensures s - multiset{x} + multiset{x} == s
  {
  }

  /** Emptying a member of the herd and filling an empty cell with the
      herd, or writing what two cells already hold, gains or loses no
      spot. */
  lemma SwapKeepsSpots(board: Grid, herd: Spot, origin: Cell, target: Cell)
    requires InGrid(board, origin) && InGrid(board, target) && origin != target
    requires (At(board, origin) == herd && At(board, target) == Empty)
          || (At(board, origin) == Empty && At(board, target) == herd)
    ensures var b := board[origin.0 := board[origin.0][origin.1 := Empty]];
      Spots(b[target.0 := b[target.0][target.1 := herd]]) == Spots(board)
  {
    var b := board[origin.0 := board[origin.0][origin.1 := Empty]];
    var b' := b[target.0 := b[target.0][target.1 := herd]];
    SpotsUpdate(board, origin.0, origin.1, Empty);
    assert b[target.0][target.1] == board[target.0][target.1];
    SpotsUpdate(b, target.0, target.1, herd);
    var x, y := At(board, origin), At(board, target);
    var s, s1, s2 := Spots(board), Spots(b), Spots(b');
    assert s1 == s - multiset{x} + multiset{Empty};
    assert s2 == s1 - multiset{y} + multiset{herd};
    if x == herd {
      TradeBack(s, herd, Empty);
    } else {
      PutBack(s, Empty);
      PutBack(s1, herd);
    }
  }

  /** A planned move either swaps a member of the herd with the empty cell
      ahead of it or writes what the board already holds; either way no
      spot is gained or lost. */
  lemma MoveKeepsSpots(g: Grid, herd: Spot, moves: seq<(Cell, Cell)>, j: nat, board: Grid, board': Grid)
    requires Rectangular(g) && herd != Empty && forall k | 0 <= k < |moves| :: IsMove(g, herd, moves[k])
    requires j < |moves| && AppliedUpTo(g, herd, moves, j, board) && IsMove(g, herd, moves[j])
    requires var (origin, target) := moves[j];
      var b := board[origin.0 := board[origin.0][origin.1 := Empty]];
      board' == b[target.0 := b[target.0][target.1 := herd]]
    ensures Spots(board') == Spots(board)
  {
    MoveEnds(g, herd, moves, j, board);
    SwapKeepsSpots(board, herd, moves[j].0, moves[j].1);
  }

  /** The planned moves are exactly those of the reference move. */
  lemma MovesExact(g: Grid, herd: Spot, empties: seq<Cell>, moves: seq<(Cell, Cell)>, p: Cell)
    requires Rectangular(g) && herd != Empty && Lists(empties, g) && InGrid(g, p)
    requires forall k | 0 <= k < |moves| :: IsMove(g, herd, moves[k])
    requires forall j | 0 <= j < |empties| ::
      At(g, Behind(g, herd, empties[j])) == herd ==> (Behind(g, herd, empties[j]), empties[j]) in moves
    ensures TargetAmong(moves, |moves|, p) <==> At(g, p) == Empty && At(g, Behind(g, herd, p)) == herd
    ensures OriginAmong(moves, |moves|, p) <==> At(g, p) == herd && At(g, Ahead(g, herd, p)) == Empty
  {
    if At(g, p) == Empty && At(g, Behind(g, herd, p)) == herd {
      assert g[p.0][p.1] == Empty && (p.0, p.1) in empties;
      var j :| 0 <= j < |empties| && empties[j] == p;
      var k :| 0 <= k < |moves| && moves[k] == (Behind(g, herd, p), p);
      assert moves[k].1 == p;
    }
    if At(g, p) == herd && At(g, Ahead(g, herd, p)) == Empty {
      var t := Ahead(g, herd, p);
      assert g[t.0][t.1] == Empty && (t.0, t.1) in empties;
      var j :| 0 <= j < |empties| && empties[j] == t;
      var k :| 0 <= k < |moves| && moves[k] == (p, t);
      assert moves[k].0 == p;
    }
    if OriginAmong(moves, |moves|, p) {
      var k :| 0 <= k < |moves| && moves[k].0 == p;
      AheadOfBehind(g, herd, moves[k].1);
    }
  }

  /** After the herd moves, the new list again lists exactly the empty
      cells. */
  lemma VacatedLists(g: Grid, herd: Spot, empties: seq<Cell>, out: seq<Cell>)
    requires Rectangular(g) && herd != Empty && Lists(empties, g)
    requires |out| == |empties|
    requires forall j | 0 <= j < |empties| :: out[j] == Vacated(g, herd, empties[j])
    ensures Lists(out, Moved(g, herd))
  {
    var m := Moved(g, herd);
    forall i | 0 <= i < |out|
      ensures InGrid(m, out[i]) && At(m, out[i]) == Empty
    {
      VacatedEmpty(g, herd, empties[i]);
    }
    forall r: nat, c: nat | r < |m| && c < |m[r]| && m[r][c] == Empty
      ensures (r, c) in out
    {
      MovedCell(g, herd, (r, c));
      EmptyListed(g, herd, empties, out, (r, c));
    }
  }

  /** The cell listed in place of `t` is empty after the move. */
  lemma VacatedEmpty(g: Grid, herd: Spot, t: Cell)
    requires Rectangular(g) && herd != Empty && InGrid(g, t) && At(g, t) == Empty
    ensures InGrid(Moved(g, herd), Vacated(g, herd, t)) && At(Moved(g, herd), Vacated(g, herd, t)) == Empty
  {
    if At(g, Behind(g, herd, t)) == herd {
      AheadOfBehind(g, herd, t);
    }
    MovedCell(g, herd, Vacated(g, herd, t));
  }

  /** Every cell empty after the move is listed. */
  lemma EmptyListed(g: Grid, herd: Spot, empties: seq<Cell>, out: seq<Cell>, p: Cell)
    requires Rectangular(g) && herd != Empty && Lists(empties, g)
    requires |out| == |empties|
    requires forall j | 0 <= j < |empties| :: out[j] == Vacated(g, herd, empties[j])
    requires InGrid(g, p) && MovedAt(g, herd, p) == Empty
    ensures p in out
  {
    var t := if At(g, p) == Empty then p else Ahead(g, herd, p);
    assert g[t.0][t.1] == Empty && (t.0, t.1) in empties;
    var j :| 0 <= j < |empties| && empties[j] == t;
    assert out[j] == p;
  }

  /** One herd's phase of the loop body of `part1`: plan the moves, then
      apply them. The result is the reference move, the new list lists its
      empty cells, and `moved` says whether anything changed. */
  method MoveHerd(g: Grid, herd: Spot, empties: seq<Cell>) returns (g': Grid, empties': seq<Cell>, moved: bool)
    requires Rectangular(g) && herd != Empty && Lists(empties, g)
    ensures g' == Moved(g, herd) && Lists(empties', g')
    ensures moved <==> g' != g
    ensures Spots(g') == Spots(g)
  {
    var moves;
    moves, empties', moved := PlanMoves(g, herd, empties);
    VacatedLists(g, herd, empties, empties');
    g' := Apply(g, herd, moves);
    AppliedIsMoved(g, herd, empties, moves, g');
    PlannedIffChanged(g, herd, empties, moves);
  }

  /** The `drain` / `flat_map` / `collect` pass: behind each listed empty
      cell, a member of the herd is planned to move into it and its cell
      takes the empty cell's place in the new list. */
  method PlanMoves(g: Grid, herd: Spot, empties: seq<Cell>)
      returns (moves: seq<(Cell, Cell)>, empties': seq<Cell>, moved: bool)
    requires Rectangular(g) && herd != Empty && Lists(empties, g)
    ensures |empties'| == |empties|
    ensures forall j | 0 <= j < |empties| :: empties'[j] == Vacated(g, herd, empties[j])
    ensures forall k | 0 <= k < |moves| :: IsMove(g, herd, moves[k])
    ensures forall j | 0 <= j < |empties| ::
      At(g, Behind(g, herd, empties[j])) == herd ==> (Behind(g, herd, empties[j]), empties[j]) in moves
    ensures moved <==> |moves| > 0
  {
    moves := [];
    empties' := [];
    moved := false;
    for i := 0 to |empties|
      invariant |empties'| == i
      invariant forall j | 0 <= j < i :: empties'[j] == Vacated(g, herd, empties[j])
      invariant forall k | 0 <= k < |moves| :: IsMove(g, herd, moves[k])
      invariant forall j | 0 <= j < i ::
        At(g, Behind(g, herd, empties[j])) == herd ==> (Behind(g, herd, empties[j]), empties[j]) in moves
      invariant moved <==> |moves| > 0
    {
      var t := empties[i];
      var origin := Behind(g, herd, t);
      if At(g, origin) == herd {
        empties' := empties' + [origin];
        moved := true;
        moves := moves + [(origin, t)];
      } else {
        empties' := empties' + [t];
      }
    }
  }

  /** Applying all planned moves gives the reference move. */
  lemma AppliedIsMoved(g: Grid, herd: Spot, empties: seq<Cell>, moves: seq<(Cell, Cell)>, board: Grid)
    requires Rectangular(g) && herd != Empty && Lists(empties, g)
    requires forall k | 0 <= k < |moves| :: IsMove(g, herd, moves[k])
    requires forall j | 0 <= j < |empties| ::
      At(g, Behind(g, herd, empties[j])) == herd ==> (Behind(g, herd, empties[j]), empties[j]) in moves
    requires AppliedUpTo(g, herd, moves, |moves|, board)
    ensures board == Moved(g, herd)
  {
    var m := Moved(g, herd);
    forall p: Cell | InGrid(g, p)
      ensures board[p.0][p.1] == m[p.0][p.1]
    {
      CellApplied(g, herd, empties, moves, board, p);
    }
    SameCells(board, m);
  }

  lemma CellApplied(g: Grid, herd: Spot, empties: seq<Cell>, moves: seq<(Cell, Cell)>, board: Grid, p: Cell)
    requires Rectangular(g) && herd != Empty && Lists(empties, g) && InGrid(g, p)
    requires forall k | 0 <= k < |moves| :: IsMove(g, herd, moves[k])
    requires forall j | 0 <= j < |empties| ::
      At(g, Behind(g, herd, empties[j])) == herd ==> (Behind(g, herd, empties[j]), empties[j]) in moves
    requires AppliedUpTo(g, herd, moves, |moves|, board)
    ensures |board[p.0]| == |g[p.0]| && board[p.0][p.1] == Moved(g, herd)[p.0][p.1]
  {
    MovesExact(g, herd, empties, moves, p);
    MovedCell(g, herd, p);
  }

  /** A move was planned exactly when the herd's move changes the grid. */
  lemma PlannedIffChanged(g: Grid, herd: Spot, empties: seq<Cell>, moves: seq<(Cell, Cell)>)
    requires Rectangular(g) && herd != Empty && Lists(empties, g)
    requires forall k | 0 <= k < |moves| :: IsMove(g, herd, moves[k])
    requires forall j | 0 <= j < |empties| ::
      At(g, Behind(g, herd, empties[j])) == herd ==> (Behind(g, herd, empties[j]), empties[j]) in moves
    ensures |moves| > 0 <==> Moved(g, herd) != g
  {
    if |moves| > 0 {
      var t := moves[0].1;
      assert IsMove(g, herd, moves[0]);
      MovedCell(g, herd, t);
      assert Moved(g, herd)[t.0][t.1] == herd;
    } else if Moved(g, herd) != g {
      var t := MovedWitness(g, herd);
      MovedCell(g, herd, t);
      MovesExact(g, herd, empties, moves, t);
    }
  }

  /** No cell is both the target of a move and the origin of one: targets
      were empty, origins held the herd. */
  lemma NotBoth(g: Grid, herd: Spot, moves: seq<(Cell, Cell)>, n: nat, p: Cell)
    requires herd != Empty && n <= |moves| && forall k | 0 <= k < |moves| :: IsMove(g, herd, moves[k])
    ensures !(TargetAmong(moves, n, p) && OriginAmong(moves, n, p))
  {
    forall k1, k2 | 0 <= k1 < n && 0 <= k2 < n
      ensures moves[k1].1 != moves[k2].0
    {
      assert IsMove(g, herd, moves[k1]) && IsMove(g, herd, moves[k2]);
    }
  }

  /** The board after the first `j` planned moves of `moves`. */
  ghost predicate AppliedUpTo(g: Grid, herd: Spot, moves: seq<(Cell, Cell)>, j: nat, board: Grid)
    requires j <= |moves|
  {
    && |board| == |g| && (forall r | 0 <= r < |g| :: |board[r]| == |g[r]|)
    && forall r: nat, c: nat | r < |g| && c < |g[r]| ::
         board[r][c] == (if TargetAmong(moves, j, (r, c)) then herd
                         else if OriginAmong(moves, j, (r, c)) then Empty
                         else g[r][c])
  }

  lemma AmongNext(moves: seq<(Cell, Cell)>, j: nat, p: Cell)
    requires j < |moves|
    ensures TargetAmong(moves, j + 1, p) <==> TargetAmong(moves, j, p) || moves[j].1 == p
    ensures OriginAmong(moves, j + 1, p) <==> OriginAmong(moves, j, p) || moves[j].0 == p
  {
  }

  /** Applying move `j` extends the applied prefix by one. */
  lemma ApplyStep(g: Grid, herd: Spot, moves: seq<(Cell, Cell)>, j: nat, board: Grid, board': Grid)
    requires Rectangular(g) && herd != Empty && forall k | 0 <= k < |moves| :: IsMove(g, herd, moves[k])
    requires j < |moves| && AppliedUpTo(g, herd, moves, j, board) && IsMove(g, herd, moves[j])
    requires var (origin, target) := moves[j];
      var b := board[origin.0 := board[origin.0][origin.1 := Empty]];
      board' == b[target.0 := b[target.0][target.1 := herd]]
    ensures AppliedUpTo(g, herd, moves, j + 1, board')
  {
    var (origin, target) := moves[j];
    assert IsMove(g, herd, moves[j]);
    assert OriginAmong(moves, j + 1, origin) && TargetAmong(moves, j + 1, target);
    NotBoth(g, herd, moves, j + 1, origin);
    NotBoth(g, herd, moves, j + 1, target);
    forall r: nat, c: nat | r < |g| && c < |g[r]|
      ensures board'[r][c] == (if TargetAmong(moves, j + 1, (r, c)) then herd
                               else if OriginAmong(moves, j + 1, (r, c)) then Empty
                               else g[r][c])
    {
      AmongNext(moves, j, (r, c));
      if (r, c) == target {
        assert board'[r][c] == herd;
      } else if (r, c) == origin {
        assert board'[r][c] == Empty;
      } else {
        assert board'[r][c] == board[r][c];
      }
    }
  }

  /** The `for_each` pass: each planned move empties its origin and fills
      its target; targets were empty and origins were not, so each cell is
      set at most one way. */
  method Apply(g: Grid, herd: Spot, moves: seq<(Cell, Cell)>) returns (board: Grid)
    requires Rectangular(g) && herd != Empty && forall k | 0 <= k < |moves| :: IsMove(g, herd, moves[k])
    ensures AppliedUpTo(g, herd, moves, |moves|, board)
    ensures Spots(board) == Spots(g)
  {
    board := g;
    for j := 0 to |moves|
      invariant AppliedUpTo(g, herd, moves, j, board)
      invariant Spots(board) == Spots(g)
    {
      ghost var before := board;
      var (origin, target) := moves[j];
      assert IsMove(g, herd, moves[j]);
      board := board[origin.0 := board[origin.0][origin.1 := Empty]];
      board := board[target.0 := board[target.0][target.1 := herd]];
      ApplyStep(g, herd, moves, j, before, board);
      MoveKeepsSpots(g, herd, moves, j, before, board);
    }
  }

  /** Step `k` from `g` changes the grid. */
  ghost predicate StepMoves(g: Grid, k: nat)
    requires Rectangular(g)
  {
    Step(StepN(g, k)) != StepN(g, k)
  }

  /** The first `n` steps all moved something. */
  ghost predicate KeptMoving(g: Grid, n: nat)
    requires Rectangular(g)
  {
    n == 0 || (KeptMoving(g, n - 1) && StepMoves(g, n - 1))
  }

  /** `KeptMoving(g, n)`: each of the first `n` steps from `g` changed
      the grid. */
  lemma {:induction false} KeptMovingMeans(g: Grid, n: nat)
    requires Rectangular(g)
    ensures KeptMoving(g, n) <==> forall k: nat | k < n :: StepMoves(g, k)
  {
    if n > 0 {
      KeptMovingMeans(g, n - 1);
      if KeptMoving(g, n) {
        forall k: nat | k < n
          ensures StepMoves(g, k)
        {
          if k < n - 1 {
            assert KeptMoving(g, n - 1);
          }
        }
      }
    }
  }

  /** The body of the loop of `part1`: the east-facing herd, then the
      south-facing herd; `notMoved` exactly when the step changed
      nothing. */
  method StepOnce(board: Grid, emptyRight: seq<Cell>) returns (board': Grid, emptyRight': seq<Cell>, notMoved: bool)
    requires Rectangular(board) && Lists(emptyRight, board)
    ensures board' == Step(board) && Lists(emptyRight', board')
    ensures notMoved <==> Step(board) == board
    ensures Spots(board') == Spots(board)
  {
    var east, emptyDown, movedEast := MoveHerd(board, Right, emptyRight);
    var movedSouth;
    board', emptyRight', movedSouth := MoveHerd(east, Down, emptyDown);
    FixedIff(board);
    notMoved := !movedEast && !movedSouth;
  }

  /** `part1`: steps until one in which nothing moves, and returns the
      number of that step. The source loops for ever when the herds never
      settle; here the loop gives up after `fuel` steps (`None`). */
  method Part1(g: Grid, fuel: nat) returns (r: Option<nat>)
    requires Rectangular(g)
    ensures r.Some? ==> (1 <= r.value <= fuel && KeptMoving(g, r.value - 1)
      && Step(StepN(g, r.value - 1)) == StepN(g, r.value - 1))
    ensures r.None? ==> KeptMoving(g, fuel)
  {
    var board := g;
    var emptyRight := CollectEmpty(g);
    var iterations := 0;
    while iterations < fuel
      invariant iterations <= fuel
      invariant board == StepN(g, iterations) && Lists(emptyRight, board)
      invariant KeptMoving(g, iterations)
    {
      var notMoved;
      board, emptyRight, notMoved := StepOnce(board, emptyRight);
      iterations := iterations + 1;
      if notMoved {
        return Some(iterations);
      }
    }
    return None;
  }

  // ---------------------------------------------------------------------
  // Parsing

  /** `v`, `>` and `.`; any other character panics. */
  function ParseSpot(c: char): (r: Option<Spot>)
    ensures r.Some? <==> c in "v>."
    ensures r == Some(Down) <==> c == 'v'
    ensures r == Some(Right) <==> c == '>'
    ensures r == Some(Empty) <==> c == '.'
  {
    match c
    case 'v' => Some(Down)
    case '>' => Some(Right)
    case '.' => Some(Empty)
    case _ => None
  }

  /** `parse_input`: one row per line, one spot per character. */
  function ParseInput(lines: seq<string>): (r: Option<Grid>)
    ensures r.Some? <==> forall i, j | 0 <= i < |lines| && 0 <= j < |lines[i]| :: ParseSpot(lines[i][j]).Some?
    ensures r.Some? ==> (|r.value| == |lines| && forall i | 0 <= i < |lines| :: |r.value[i]| == |lines[i]|)
    ensures r.Some? ==> forall i, j | 0 <= i < |lines| && 0 <= j < |lines[i]| :: Some(r.value[i][j]) == ParseSpot(lines[i][j])
  {
    if forall i, j | 0 <= i < |lines| && 0 <= j < |lines[i]| :: ParseSpot(lines[i][j]).Some? then
      Some(seq(|lines|, i requires 0 <= i < |lines| =>
        seq(|lines[i]|, j requires 0 <= j < |lines[i]| => ParseSpot(lines[i][j]).value)))
    else None
  }
}
