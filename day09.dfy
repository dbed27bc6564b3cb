/**
 * Day 9: Smoke Basin. A height grid of digits; low points are the cells
 * strictly lower than every orthogonal neighbour, and the basin of a low
 * point is everything a breadth-first search reaches by stepping to
 * strictly higher cells that are not of height 9.
 */
module Day9 {
  import opened Common

  /** The height grid, one row per input line (rows may differ in length). */
  type Grid = seq<seq<int>>

  /** A position (row, column) together with the height found there. */
  type Cell = (nat, nat, int)

  /** A position (row, column). */
  type Spot = (nat, nat)

  predicate InBounds(grid: Grid, x: nat, y: nat) {
    x < |grid| && y < |grid[x]|
  }

  /** `(x', y')` is one of the four orthogonal neighbours of `(x, y)`. */
  predicate Adjacent(x: nat, y: nat, x': nat, y': nat) {
    (x' == x && (y' == y + 1 || y' + 1 == y)) || (y' == y && (x' == x + 1 || x' + 1 == x))
  }

  // ---------------------------------------------------------------------
  // Parsing: `char as u8 - b'0'` per character

  function ParseInput(lines: seq<string>): (r: Option<Grid>)
    ensures r.Some? <==> forall i :: 0 <= i < |lines| ==> ByteDigits(lines[i]).Some?
    ensures r.Some? ==> |r.value| == |lines|
    ensures r.Some? ==> forall i :: 0 <= i < |lines| ==> Some(r.value[i]) == ByteDigits(lines[i])
  {
    if lines == [] then Some([])
    else
      match (ParseInput(lines[..|lines| - 1]), ByteDigits(lines[|lines| - 1]))
      case (Some(init), Some(row)) => Some(init + [row])
      case _ => None
  }

  // ---------------------------------------------------------------------
  // neighbours, positions, low

  /**
   * The in-bounds orthogonal neighbours of `(x, y)` with their heights:
   * above, below, left, right, each only where the row and column exist.
   */
  function Neighbours(x: nat, y: nat, grid: Grid): (r: seq<Cell>)
    ensures |r| <= 4
    ensures forall n :: n in r ==>
      InBounds(grid, n.0, n.1) && n.2 == grid[n.0][n.1] && Adjacent(x, y, n.0, n.1)
    ensures forall x': nat, y': nat :: InBounds(grid, x', y') && Adjacent(x, y, x', y') ==>
      (x', y', grid[x'][y']) in r
  {
    var a := if 0 < x && x - 1 < |grid| && y < |grid[x - 1]| then [(x - 1, y, grid[x - 1][y])] else [];
    var b := if x + 1 < |grid| && y < |grid[x + 1]| then [(x + 1, y, grid[x + 1][y])] else [];
    var c := if 0 < y && x < |grid| && y - 1 < |grid[x]| then [(x, y - 1, grid[x][y - 1])] else [];
    var d := if x < |grid| && y + 1 < |grid[x]| then [(x, y + 1, grid[x][y + 1])] else [];
    a + b + c + d
  }

  /** Row-major order on positions. */
  predicate Before(p: Cell, q: Cell) {
    p.0 < q.0 || (p.0 == q.0 && p.1 < q.1)
  }

  /** Every cell of the first `n` rows, in row-major order. */
  function RowsPositions(grid: Grid, n: nat): (r: seq<Cell>)
    requires n <= |grid|
    ensures forall k :: 0 <= k < |r| ==>
      r[k].0 < n && InBounds(grid, r[k].0, r[k].1) && r[k].2 == grid[r[k].0][r[k].1]
    ensures forall x: nat, y: nat :: x < n && InBounds(grid, x, y) ==> (x, y, grid[x][y]) in r
    ensures forall i, j :: 0 <= i < j < |r| ==> Before(r[i], r[j])
  {
    if n == 0 then []
    else
      var x := n - 1;
      var row := seq(|grid[x]|, y requires 0 <= y < |grid[x]| => (x, y, grid[x][y]));
      assert forall y: nat :: y < |row| ==> (x, y, grid[x][y]) in row by {
        forall y: nat | y < |row| ensures (x, y, grid[x][y]) in row {
          assert row[y] == (x, y, grid[x][y]);
        }
      }
      RowsPositions(grid, n - 1) + row
  }

  /** Every cell of the grid exactly once, in row-major order, with its height. */
  function Positions(grid: Grid): (r: seq<Cell>)
    ensures forall p :: p in r <==> InBounds(grid, p.0, p.1) && p.2 == grid[p.0][p.1]
    ensures forall i, j :: 0 <= i < j < |r| ==> Before(r[i], r[j])
    ensures forall i, j :: 0 <= i < j < |r| ==> (r[i].0, r[i].1) != (r[j].0, r[j].1)
  {
    RowsPositions(grid, |grid|)
  }

  /** The test `low` applies: every neighbour is strictly higher. */
  predicate AllHigher(grid: Grid, p: Cell) {
    forall n :: n in Neighbours(p.0, p.1, grid) ==> n.2 > p.2
  }

  /** A low point, stated on the grid itself rather than through `Neighbours`. */
  ghost predicate IsLowPoint(grid: Grid, x: nat, y: nat) {
    InBounds(grid, x, y)
    && forall x': nat, y': nat :: InBounds(grid, x', y') && Adjacent(x, y, x', y') ==>
      grid[x'][y'] > grid[x][y]
  }

  function KeepLow(grid: Grid, ps: seq<Cell>): (r: seq<Cell>)
    ensures forall p :: p in r <==> p in ps && AllHigher(grid, p)
  {
    if ps == [] then []
    else
      var last := ps[|ps| - 1];
      KeepLow(grid, ps[..|ps| - 1]) + (if AllHigher(grid, last) then [last] else [])
  }

  /** The low points, in row-major order. */
  function Low(grid: Grid): (r: seq<Cell>)
    ensures forall p :: p in r <==> p in Positions(grid) && AllHigher(grid, p)
  {
    KeepLow(grid, Positions(grid))
  }

  /** `low` yields exactly the low points of the grid, each with its height. */
  lemma LowExactly(grid: Grid, x: nat, y: nat, v: int)
    ensures (x, y, v) in Low(grid) <==> IsLowPoint(grid, x, y) && v == grid[x][y]
  {
    if IsLowPoint(grid, x, y) && v == grid[x][y] {
      assert AllHigher(grid, (x, y, v));
    }
  }

  // ---------------------------------------------------------------------
  // part1

  function Risks(ps: seq<Cell>): (r: seq<int>)
    ensures |r| == |ps|
    ensures forall k :: 0 <= k < |ps| ==> r[k] == ps[k].2 + 1
  {
    if ps == [] then [] else Risks(ps[..|ps| - 1]) + [ps[|ps| - 1].2 + 1]
  }

  /**
   * The sum of the risk levels (height + 1) of the low points: summed over
   * every cell of the grid, height + 1 where the cell is a low point and
   * nothing elsewhere.
   */
  function Part1(grid: Grid): (r: int)
    ensures r == GridRisk(grid, |grid|)
  {
    KeptRisk(grid, Positions(grid));
    RowsRisk(grid, |grid|);
    Sum(Risks(Low(grid)))
  }

  /** The risk a cell adds to part 1: its height + 1 at a low point, nothing elsewhere. */
  ghost function CellRisk(grid: Grid, x: nat, y: nat): int
    requires InBounds(grid, x, y)
  {
    if IsLowPoint(grid, x, y) then grid[x][y] + 1 else 0
  }

  /** The risks of the first `n` cells of row `x`. */
  ghost function RowRisk(grid: Grid, x: nat, n: nat): int
    requires x < |grid| && n <= |grid[x]|
  {
    if n == 0 then 0 else RowRisk(grid, x, n - 1) + CellRisk(grid, x, n - 1)
  }

  /** The risks of every cell of the first `n` rows. */
  ghost function GridRisk(grid: Grid, n: nat): int
    requires n <= |grid|
  {
    if n == 0 then 0 else GridRisk(grid, n - 1) + RowRisk(grid, n - 1, |grid[n - 1]|)
  }

  /** `low`'s neighbour test on a cell of the grid is the low-point condition. */
  lemma AllHigherIsLow(grid: Grid, x: nat, y: nat)
    requires InBounds(grid, x, y)
    ensures AllHigher(grid, (x, y, grid[x][y])) <==> IsLowPoint(grid, x, y)
  {
    var ns := Neighbours(x, y, grid);
    if AllHigher(grid, (x, y, grid[x][y])) {
      forall x': nat, y': nat | InBounds(grid, x', y') && Adjacent(x, y, x', y')
        ensures grid[x'][y'] > grid[x][y]
      {
        assert (x', y', grid[x'][y']) in ns;
      }
    }
  }

  /** The risks of the cells `ps`, each judged on the grid itself. */
  ghost function RiskOver(grid: Grid, ps: seq<Cell>): int
    requires forall k :: 0 <= k < |ps| ==> InBounds(grid, ps[k].0, ps[k].1)
  {
    if ps == [] then 0 else RiskOver(grid, ps[..|ps| - 1]) + CellRisk(grid, ps[|ps| - 1].0, ps[|ps| - 1].1)
  }

  lemma KeepLowLast(grid: Grid, ps: seq<Cell>)
    requires ps != []
    ensures KeepLow(grid, ps) == KeepLow(grid, ps[..|ps| - 1]) + (if AllHigher(grid, ps[|ps| - 1]) then [ps[|ps| - 1]] else [])
  {
  }

  lemma RisksLast(before: seq<Cell>, last: Cell)
    ensures Sum(Risks(before + [last])) == Sum(Risks(before)) + last.2 + 1
  {
    var after := before + [last];
    assert after[..|after| - 1] == before;
    var r := Risks(after);
    assert r[..|r| - 1] == Risks(before);
  }

  /** Keeping the low points of `ps` and summing their risk levels sums the risks of `ps`. */
  lemma {:induction false} KeptRisk(grid: Grid, ps: seq<Cell>)
    requires forall k :: 0 <= k < |ps| ==> InBounds(grid, ps[k].0, ps[k].1) && ps[k].2 == grid[ps[k].0][ps[k].1]
    ensures Sum(Risks(KeepLow(grid, ps))) == RiskOver(grid, ps)
  {
    if ps != [] {
      var init, last := ps[..|ps| - 1], ps[|ps| - 1];
      KeptRisk(grid, init);
      KeepLowLast(grid, ps);
      AllHigherIsLow(grid, last.0, last.1);
      assert last == (last.0, last.1, grid[last.0][last.1]);
      if AllHigher(grid, last) {
        RisksLast(KeepLow(grid, init), last);
      } else {
        assert KeepLow(grid, init) + [] == KeepLow(grid, init);
      }
    }
  }

  lemma {:induction false} RiskOverAppend(grid: Grid, ps: seq<Cell>, qs: seq<Cell>)
    requires forall k :: 0 <= k < |ps| ==> InBounds(grid, ps[k].0, ps[k].1)
    requires forall k :: 0 <= k < |qs| ==> InBounds(grid, qs[k].0, qs[k].1)
    ensures RiskOver(grid, ps + qs) == RiskOver(grid, ps) + RiskOver(grid, qs)
    decreases |qs|
  {
    if qs != [] {
      var init, last := qs[..|qs| - 1], qs[|qs| - 1];
      var all := ps + qs;
      assert all[..|all| - 1] == ps + init;
      assert all[|all| - 1] == last;
      RiskOverAppend(grid, ps, init);
      assert RiskOver(grid, all) == RiskOver(grid, ps + init) + CellRisk(grid, last.0, last.1);
      assert RiskOver(grid, qs) == RiskOver(grid, init) + CellRisk(grid, last.0, last.1);
    } else {
      assert ps + qs == ps;
    }
  }

  /** The cells of row `x`, left to right. */
  ghost function RowCells(grid: Grid, x: nat): seq<Cell>
    requires x < |grid|
  {
    seq(|grid[x]|, y requires 0 <= y < |grid[x]| => (x, y, grid[x][y]))
  }

  /** The first `k` cells of row `x` carry that prefix's risk. */
  lemma {:induction false} RowRiskPrefix(grid: Grid, x: nat, row: seq<Cell>, k: nat)
    requires x < |grid| && row == RowCells(grid, x)
    requires k <= |row|
    ensures RiskOver(grid, row[..k]) == RowRisk(grid, x, k)
  {
    if k > 0 {
      RowRiskPrefix(grid, x, row, k - 1);
      assert row[..k][..k - 1] == row[..k - 1];
    }
  }

  lemma RowsLast(grid: Grid, n: nat)
    requires 0 < n <= |grid|
    ensures RowsPositions(grid, n)
         == RowsPositions(grid, n - 1) + RowCells(grid, n - 1)
  {
  }

  /** Adding row `n - 1` to the cells of the rows above adds that row's risk. */
  lemma RowStep(grid: Grid, n: nat, above: seq<Cell>, row: seq<Cell>)
    requires 0 < n <= |grid| && row == RowCells(grid, n - 1)
    requires forall k :: 0 <= k < |above| ==> InBounds(grid, above[k].0, above[k].1)
    requires RiskOver(grid, above) == GridRisk(grid, n - 1)
    ensures RiskOver(grid, above + row) == GridRisk(grid, n)
  {
    RiskOverAppend(grid, above, row);
    RowRiskPrefix(grid, n - 1, row, |row|);
    assert row[..|row|] == row;
  }

  /** The cells of the first `n` rows carry those rows' risk. */
  lemma {:induction false} RowsRisk(grid: Grid, n: nat)
    requires n <= |grid|
    ensures RiskOver(grid, RowsPositions(grid, n)) == GridRisk(grid, n)
  {
    if n > 0 {
      RowsRisk(grid, n - 1);
      RowsLast(grid, n);
      RowStep(grid, n, RowsPositions(grid, n - 1), RowCells(grid, n - 1));
    }
  }


  // ---------------------------------------------------------------------
  // basin_size

  /**
   * The height the search attaches to a position: the given `depth` at the
   * start (it is queued with it), the grid's height everywhere else.
   */
  function Depth(grid: Grid, start: Spot, depth: int, p: Spot): int {
    if p == start then depth else if InBounds(grid, p.0, p.1) then grid[p.0][p.1] else 0
  }

  /** One basin step: to an orthogonal neighbour strictly higher than `p` and not of height 9. */
  predicate Step(grid: Grid, start: Spot, depth: int, p: Spot, q: Spot) {
    InBounds(grid, q.0, q.1) && Adjacent(p.0, p.1, q.0, q.1)
    && grid[q.0][q.1] > Depth(grid, start, depth, p) && grid[q.0][q.1] != 9
  }

  /** Every later position of `order` is one step from an earlier one. */
  ghost predicate Linked(grid: Grid, start: Spot, depth: int, order: seq<Spot>) {
    forall k :: 0 < k < |order| ==> LinkedAt(grid, start, depth, order, k)
  }

  /** The position at index `k` of `order` is one step from an earlier one. */
  ghost predicate LinkedAt(grid: Grid, start: Spot, depth: int, order: seq<Spot>, k: nat)
    requires k < |order|
  {
    exists j :: 0 <= j < k && Step(grid, start, depth, order[j], order[k])
  }

  /**
   * `order` lists a basin without repetition: it begins at `start`, each
   * later position is one step from an earlier one, and no step leads out.
   */
  ghost predicate IsBasin(grid: Grid, start: Spot, depth: int, order: seq<Spot>) {
    |order| > 0 && order[0] == start && Distinct(order)
    && Linked(grid, start, depth, order)
    && forall p, q :: p in order && Step(grid, start, depth, p, q) ==> q in order
  }

  /** The cells of `Neighbours` that the search queues after `pos`. */
  function Deeper(grid: Grid, pos: Cell): (r: seq<Cell>)
    ensures forall n :: n in r <==> n in Neighbours(pos.0, pos.1, grid) && n.2 > pos.2 && n.2 != 9
  {
    KeepDeeper(Neighbours(pos.0, pos.1, grid), pos.2)
  }

  function KeepDeeper(ns: seq<Cell>, d: int): (r: seq<Cell>)
    ensures forall n :: n in r <==> n in ns && n.2 > d && n.2 != 9
  {
    if ns == [] then []
    else
      var last := ns[|ns| - 1];
      KeepDeeper(ns[..|ns| - 1], d) + (if last.2 > d && last.2 != 9 then [last] else [])
  }

  /** The positions queued in `todo`. */
  ghost function Queued(todo: seq<Cell>): set<Spot> {
    set i | 0 <= i < |todo| :: (todo[i].0, todo[i].1)
  }

  /** A queued cell carries its grid height and is one step from a processed position. */
  ghost predicate Reached(grid: Grid, start: Spot, depth: int, order: seq<Spot>, c: Cell) {
    InBounds(grid, c.0, c.1) && c.2 == grid[c.0][c.1]
    && exists j :: 0 <= j < |order| && Step(grid, start, depth, order[j], (c.0, c.1))
  }

  /** Every step out of a processed position ends in a processed or a queued one. */
  ghost predicate ClosedUpTo(grid: Grid, start: Spot, depth: int, order: seq<Spot>, todo: seq<Cell>) {
    forall p, q :: p in order && Step(grid, start, depth, p, q) ==> q in order || q in Queued(todo)
  }

  ghost function Universe(grid: Grid, start: Spot): set<Spot> {
    (set x: nat, y: nat | x < |grid| && y < |grid[x]| :: (x, y)) + {start}
  }

  /**
   * The breadth-first search of `basin_size`: the processed positions,
   * listed in the order they were first taken from the queue, form the
   * basin of `(x, y)`, and the result is how many there are.
   */
  method BasinSize(x: nat, y: nat, depth: int, grid: Grid) returns (size: nat, ghost order: seq<Spot>)
    ensures IsBasin(grid, (x, y), depth, order)
    ensures size == |order|
  {
    ghost var start := (x, y);
    var todo: seq<Cell> := [(x, y, depth)];
    var processed: set<Spot> := {};
    order := [];
    while todo != []
      invariant processed == Elems(order) && Distinct(order)
      invariant processed <= Universe(grid, start)
      invariant order == [] ==> todo == [(x, y, depth)]
      invariant order != [] ==> order[0] == start
      invariant Linked(grid, start, depth, order)
      invariant order != [] ==> forall i :: 0 <= i < |todo| ==> Reached(grid, start, depth, order, todo[i])
      invariant ClosedUpTo(grid, start, depth, order, todo)
      decreases |Universe(grid, start) - processed|, |todo|
    {
      var pos := todo[0];
      if (pos.0, pos.1) !in processed {
        SearchStep(grid, start, depth, order, processed, todo);
        processed := processed + {(pos.0, pos.1)};
        order := order + [(pos.0, pos.1)];
        todo := todo[1..] + Deeper(grid, pos);
      } else {
        QueuedPop(todo);
        todo := todo[1..];
      }
    }
    DistinctCount(order);
    size := |processed|;
  }

  /** Taking the head off the queue leaves every other queued position queued. */
  lemma QueuedPop(todo: seq<Cell>)
    requires todo != []
    ensures Queued(todo) <= Queued(todo[1..]) + {(todo[0].0, todo[0].1)}
  {
    forall q | q in Queued(todo) ensures q in Queued(todo[1..]) + {(todo[0].0, todo[0].1)} {
      var i :| 0 <= i < |todo| && q == (todo[i].0, todo[i].1);
      if i > 0 {
        assert todo[1..][i - 1] == todo[i];
      }
    }
  }

  /** Processing the head of the queue when it is new keeps every loop invariant of `BasinSize`. */
  lemma SearchStep(grid: Grid, start: Spot, depth: int, order: seq<Spot>, processed: set<Spot>, todo: seq<Cell>)
    requires todo != [] && (todo[0].0, todo[0].1) !in processed
    requires processed == Elems(order) && Distinct(order)
    requires processed <= Universe(grid, start)
    requires order == [] ==> todo == [(start.0, start.1, depth)]
    requires order != [] ==> order[0] == start
    requires Linked(grid, start, depth, order)
    requires order != [] ==> forall i :: 0 <= i < |todo| ==> Reached(grid, start, depth, order, todo[i])
    requires ClosedUpTo(grid, start, depth, order, todo)
    ensures var spot := (todo[0].0, todo[0].1);
      var order' := order + [spot];
      var processed' := processed + {spot};
      var todo' := todo[1..] + Deeper(grid, todo[0]);
      processed' == Elems(order') && Distinct(order')
      && processed' <= Universe(grid, start)
      && order'[0] == start
      && Linked(grid, start, depth, order')
      && (forall i :: 0 <= i < |todo'| ==> Reached(grid, start, depth, order', todo'[i]))
      && ClosedUpTo(grid, start, depth, order', todo')
      && |Universe(grid, start) - processed'| < |Universe(grid, start) - processed|
  {
    var pos := todo[0];
    var spot := (pos.0, pos.1);
    assert pos.2 == Depth(grid, start, depth, spot);
    assert Elems(order + [spot]) == Elems(order) + {spot};
    assert Distinct(order + [spot]) by {
      assert spot !in order;
    }
    LinkedStep(grid, start, depth, order, spot);
    ReachedStep(grid, start, depth, order, todo);
    ClosedStep(grid, start, depth, order, todo);
    var u := Universe(grid, start);
    assert spot in u - processed;
    assert u - (processed + {spot}) == (u - processed) - {spot};
  }

  lemma LinkedStep(grid: Grid, start: Spot, depth: int, order: seq<Spot>, spot: Spot)
    requires Linked(grid, start, depth, order)
    requires order != [] ==> exists j :: 0 <= j < |order| && Step(grid, start, depth, order[j], spot)
    ensures Linked(grid, start, depth, order + [spot])
  {
    var order' := order + [spot];
    forall k | 0 < k < |order'|
      ensures LinkedAt(grid, start, depth, order', k)
    {
      if k < |order| {
        assert LinkedAt(grid, start, depth, order, k);
        var j :| 0 <= j < k && Step(grid, start, depth, order[j], order[k]);
        assert order'[j] == order[j];
      } else {
        var j :| 0 <= j < |order| && Step(grid, start, depth, order[j], spot);
        assert order'[j] == order[j];
      }
    }
  }

  lemma ReachedStep(grid: Grid, start: Spot, depth: int, order: seq<Spot>, todo: seq<Cell>)
    requires todo != []
    requires todo[0].2 == Depth(grid, start, depth, (todo[0].0, todo[0].1))
    requires order == [] ==> |todo| == 1
    requires order != [] ==> forall i :: 0 <= i < |todo| ==> Reached(grid, start, depth, order, todo[i])
    ensures var order' := order + [(todo[0].0, todo[0].1)];
      var todo' := todo[1..] + Deeper(grid, todo[0]);
      forall i :: 0 <= i < |todo'| ==> Reached(grid, start, depth, order', todo'[i])
  {
    var pos := todo[0];
    var spot := (pos.0, pos.1);
    var order' := order + [spot];
    var rest := todo[1..];
    var todo' := rest + Deeper(grid, pos);
    forall i | 0 <= i < |todo'|
      ensures Reached(grid, start, depth, order', todo'[i])
    {
      if i < |rest| {
        assert todo'[i] == todo[i + 1];
        var j :| 0 <= j < |order| && Step(grid, start, depth, order[j], (todo[i + 1].0, todo[i + 1].1));
        assert order'[j] == order[j];
      } else {
        var n := todo'[i];
        assert n in Deeper(grid, pos);
        assert order'[|order|] == spot;
        assert Step(grid, start, depth, spot, (n.0, n.1));
      }
    }
  }

  lemma ClosedStep(grid: Grid, start: Spot, depth: int, order: seq<Spot>, todo: seq<Cell>)
    requires todo != []
    requires todo[0].2 == Depth(grid, start, depth, (todo[0].0, todo[0].1))
    requires ClosedUpTo(grid, start, depth, order, todo)
    ensures ClosedUpTo(grid, start, depth, order + [(todo[0].0, todo[0].1)], todo[1..] + Deeper(grid, todo[0]))
  {
    var pos := todo[0];
    var spot := (pos.0, pos.1);
    var order' := order + [spot];
    var rest := todo[1..];
    var todo' := rest + Deeper(grid, pos);
    QueuedPop(todo);
    forall p, q | p in order' && Step(grid, start, depth, p, q)
      ensures q in order' || q in Queued(todo')
    {
      if p == spot {
        DeeperStep(grid, start, depth, pos, q, rest);
      } else if q !in order' {
        assert q in Queued(rest);
        var i :| 0 <= i < |rest| && q == (rest[i].0, rest[i].1);
        assert todo'[i] == rest[i];
      }
    }
  }

  /** A step out of the processed position `pos` ends in a cell `Deeper` queues. */
  lemma DeeperStep(grid: Grid, start: Spot, depth: int, pos: Cell, q: Spot, rest: seq<Cell>)
    requires pos.2 == Depth(grid, start, depth, (pos.0, pos.1))
    requires Step(grid, start, depth, (pos.0, pos.1), q)
    ensures q in Queued(rest + Deeper(grid, pos))
  {
    var n := (q.0, q.1, grid[q.0][q.1]);
    assert n in Neighbours(pos.0, pos.1, grid);
    assert n in Deeper(grid, pos);
    var i :| 0 <= i < |Deeper(grid, pos)| && Deeper(grid, pos)[i] == n;
    assert (rest + Deeper(grid, pos))[|rest| + i] == n;
  }

  /** The basin of a start position is determined: any two listings hold the same positions. */
  lemma BasinUnique(grid: Grid, start: Spot, depth: int, a: seq<Spot>, b: seq<Spot>)
    requires IsBasin(grid, start, depth, a) && IsBasin(grid, start, depth, b)
    ensures Elems(a) == Elems(b) && |a| == |b|
  {
    BasinWithin(grid, start, depth, a, b);
    BasinWithin(grid, start, depth, b, a);
    DistinctCount(a);
    DistinctCount(b);
  }

  /** Every position of a basin listing `a` lies in any other listing `b` closed under steps. */
  lemma BasinWithin(grid: Grid, start: Spot, depth: int, a: seq<Spot>, b: seq<Spot>)
    requires IsBasin(grid, start, depth, a) && IsBasin(grid, start, depth, b)
    ensures Elems(a) <= Elems(b)
  {
    forall k | 0 <= k < |a| ensures a[k] in b {
      InBasinAt(grid, start, depth, a, b, k);
    }
  }

  lemma {:induction false} InBasinAt(grid: Grid, start: Spot, depth: int, a: seq<Spot>, b: seq<Spot>, k: nat)
    requires IsBasin(grid, start, depth, a) && IsBasin(grid, start, depth, b)
    requires k < |a|
    ensures a[k] in b
    decreases k
  {
    if k == 0 {
      assert b[0] == start;
    } else {
      assert LinkedAt(grid, start, depth, a, k);
      var j :| 0 <= j < k && Step(grid, start, depth, a[j], a[k]);
      InBasinAt(grid, start, depth, a, b, j);
    }
  }

  // ---------------------------------------------------------------------
  // part2

  function Product(s: seq<int>): int {
    if s == [] then 1 else Product(s[..|s| - 1]) * s[|s| - 1]
  }

  /** The basin sizes `part2` multiplies: the first three of the sizes sorted in descending order. */
  function LargestThree(sizes: seq<int>): (r: seq<int>)
    ensures |r| == if |sizes| < 3 then |sizes| else 3
  {
    var desc := Reverse(SortSeq(sizes));
    desc[..if |desc| < 3 then |desc| else 3]
  }

  /** No value of `all` left out of `top` is larger than a value of `top`. */
  predicate NoneLarger(top: seq<int>, all: multiset<int>) {
    forall k, v :: 0 <= k < |top| && v in all - multiset(top) ==> v <= top[k]
  }

  /** The three factors are sizes from the list, and no size left out is larger than any of them. */
  lemma LargestThreeAreLargest(sizes: seq<int>)
    ensures multiset(LargestThree(sizes)) <= multiset(sizes)
    ensures NoneLarger(LargestThree(sizes), multiset(sizes))
  {
    var desc := Reverse(SortSeq(sizes));
    var n := if |desc| < 3 then |desc| else 3;
    ReverseMultiset(SortSeq(sizes));
    ReverseDescending(SortSeq(sizes));
    PrefixOfDescending(desc, n);
    assert LargestThree(sizes) == desc[..n];
  }

  /** A prefix of a descending sequence holds its largest elements. */
  lemma PrefixOfDescending(desc: seq<int>, n: nat)
    requires n <= |desc|
    requires forall i, j :: 0 <= i < j < |desc| ==> desc[i] >= desc[j]
    ensures multiset(desc[..n]) <= multiset(desc)
    ensures NoneLarger(desc[..n], multiset(desc))
  {
    var top, rest := desc[..n], desc[n..];
    assert desc == top + rest;
    assert multiset(desc) == multiset(top) + multiset(rest);
    forall k, v | 0 <= k < n && v in multiset(desc) - multiset(top)
      ensures v <= desc[k]
    {
      assert v in rest;
      var i :| 0 <= i < |rest| && rest[i] == v;
      assert rest[i] == desc[n + i];
    }
  }

  lemma ReverseDescending(s: seq<int>)
    requires Sorted(s)
    ensures forall i, j :: 0 <= i < j < |s| ==> Reverse(s)[i] >= Reverse(s)[j]
  {
    var r := Reverse(s);
    forall i, j | 0 <= i < j < |s| ensures r[i] >= r[j] {
      assert r[i] == s[|s| - 1 - i] && r[j] == s[|s| - 1 - j];
    }
  }

  /** Holds when `n` is the size of the basin that the search from `c` explores. */
  ghost predicate IsBasinSize(grid: Grid, c: Cell, n: nat) {
    exists order :: IsBasin(grid, (c.0, c.1), c.2, order) && |order| == n
  }

  /** The basin size of every cell of `cells`, by one search each. */
  method BasinSizes(grid: Grid, cells: seq<Cell>) returns (sizes: seq<nat>)
    ensures AllBasinSizes(grid, cells, sizes)
  {
    sizes := [];
    var i := 0;
    while i < |cells|
      invariant 0 <= i <= |cells|
      invariant AllBasinSizes(grid, cells[..i], sizes)
    {
      var size, order := BasinSize(cells[i].0, cells[i].1, cells[i].2, grid);
      SizesSnoc(grid, cells[..i + 1], sizes, size, order);
      sizes := sizes + [size];
      i := i + 1;
    }
    assert cells[..i] == cells;
  }

  /**
   * `part2`: the basin size of every low point, in the order `low` yields
   * them, and the product of the three largest.
   */
  method Part2(grid: Grid) returns (r: int, basins: seq<nat>)
    ensures AllBasinSizes(grid, Low(grid), basins)
    ensures r == Product(LargestThree(basins))
  {
    basins := BasinSizes(grid, Low(grid));
    r := Product(LargestThree(basins));
  }

  /** `sizes[k]` is the basin size of `cells[k]`, for every `k`. */
  ghost predicate AllBasinSizes(grid: Grid, cells: seq<Cell>, sizes: seq<nat>) {
    |sizes| == |cells| && forall k :: 0 <= k < |cells| ==> IsBasinSize(grid, cells[k], sizes[k])
  }

  lemma SizesSnoc(grid: Grid, cells: seq<Cell>, sizes: seq<nat>, size: nat, order: seq<Spot>)
    requires cells != [] && AllBasinSizes(grid, cells[..|cells| - 1], sizes)
    requires IsBasin(grid, (cells[|cells| - 1].0, cells[|cells| - 1].1), cells[|cells| - 1].2, order)
    requires size == |order|
    ensures AllBasinSizes(grid, cells, sizes + [size])
  {
    var n := |cells| - 1;
    forall k | 0 <= k < |cells| ensures IsBasinSize(grid, cells[k], (sizes + [size])[k]) {
      if k < n {
        assert cells[..n][k] == cells[k];
        assert IsBasinSize(grid, cells[..n][k], sizes[k]);
      } else {
        assert IsBasin(grid, (cells[k].0, cells[k].1), cells[k].2, order);
      }
    }
  }

  // ---------------------------------------------------------------------
  // The example of the puzzle text

  function Example(): Grid {
    [[2, 1, 9, 9, 9, 4, 3, 2, 1, 0],
     [3, 9, 8, 7, 8, 9, 4, 9, 2, 1],
     [9, 8, 5, 6, 7, 8, 9, 8, 9, 2],
     [8, 7, 6, 7, 8, 9, 6, 7, 8, 9],
     [9, 8, 9, 9, 9, 6, 5, 6, 7, 8]]
  }

  /** The four low points of the example (risk levels 2, 1, 6 and 6) are kept by `low`. */
  lemma ExampleLowPoint(x: nat, y: nat)
    requires (x, y) in {(0, 1), (0, 9), (2, 2), (4, 6)}
    ensures (x, y, Example()[x][y]) in Low(Example())
  {
    var g := Example();
    assert IsLowPoint(g, x, y) by {
      forall x': nat, y': nat | InBounds(g, x', y') && Adjacent(x, y, x', y')
        ensures g[x'][y'] > g[x][y]
      {
      }
    }
    LowExactly(g, x, y, g[x][y]);
  }
}
