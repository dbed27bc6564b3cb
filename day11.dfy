/**
 * Day 11: Dumbo Octopus. A 10×10 grid of energy levels. A step raises
 * every level by one; every octopus above 9 flashes, once, and raises each
 * of its up to eight neighbours by one, which may make them flash in turn;
 * at the end every octopus that flashed drops to 0.
 */
module Day11 {
  import opened Common

  const Size: nat := 10

  /** A position (row, column). */
  type Cell = (nat, nat)

  predicate InGrid(c: Cell) {
    c.0 < Size && c.1 < Size
  }

  /** `b` is one of the up to eight cells around `a`, not `a` itself. */
  predicate Near(a: Cell, b: Cell) {
    a != b && a.0 <= b.0 + 1 && b.0 <= a.0 + 1 && a.1 <= b.1 + 1 && b.1 <= a.1 + 1
  }

  /** Energy levels as a value: `Size` rows of `Size` levels. */
  type Levels = seq<seq<int>>

  predicate IsLevels(g: Levels) {
    |g| == Size && forall i :: 0 <= i < Size ==> |g[i]| == Size
  }

  function Level(g: Levels, c: Cell): int
    requires IsLevels(g) && InGrid(c)
  {
    g[c.0][c.1]
  }

  /** The contents of the grid array. */
  function Snapshot(grid: array2<int>): (g: Levels)
    requires grid.Length0 == Size && grid.Length1 == Size
    reads grid
    ensures IsLevels(g)
    ensures forall i, j :: 0 <= i < Size && 0 <= j < Size ==> g[i][j] == grid[i, j]
  {
    seq(Size, i requires 0 <= i < Size reads grid =>
      seq(Size, j requires 0 <= j < Size reads grid => grid[i, j]))
  }

  // ---------------------------------------------------------------------
  // parse_input

  /**
   * One row: the first ten characters of the trimmed line, each through
   * `as u8 - b'0'`; `None` where the source panics (a short line, or a
   * character below `'0'`). Characters after the tenth are ignored.
   */
  function ParseLine(line: string): (r: Option<seq<int>>)
    ensures r.Some? ==> |r.value| == Size
    ensures r.Some? ==> (|Trim(line)| >= Size
      && forall j :: 0 <= j < Size ==> Some(r.value[j]) == ByteDigit(Trim(line)[j]))
    ensures |Trim(line)| < Size ==> r.None?
  {
    var t := Trim(line);
    if |t| < Size then None else ByteDigits(t[..Size])
  }

  /** The first ten lines as the grid; lines after the tenth are ignored. */
  function ParseInput(lines: seq<string>): (r: Option<Levels>)
    ensures r.Some? ==> IsLevels(r.value)
    ensures r.Some? ==> (|lines| >= Size
      && forall i :: 0 <= i < Size ==> Some(r.value[i]) == ParseLine(lines[i]))
    ensures r.Some? <==> |lines| >= Size && forall i :: 0 <= i < Size ==> ParseLine(lines[i]).Some?
  {
    if |lines| < Size then None else ParseRows(lines, Size)
  }

  function ParseRows(lines: seq<string>, n: nat): (r: Option<Levels>)
    requires n <= |lines|
    ensures r.Some? ==> |r.value| == n
    ensures r.Some? ==> forall i :: 0 <= i < n ==> Some(r.value[i]) == ParseLine(lines[i])
    ensures r.Some? <==> forall i :: 0 <= i < n ==> ParseLine(lines[i]).Some?
  {
    if n == 0 then Some([])
    else
      match (ParseRows(lines, n - 1), ParseLine(lines[n - 1]))
      case (Some(init), Some(row)) => Some(init + [row])
      case _ => None
  }

  // ---------------------------------------------------------------------
  // neighbours

  /**
   * The cells around `(x, y)` that lie on the grid, each once, by the two
   * nested loops over the offsets -1, 0 and 1.
   */
  method Neighbours(x: int, y: int) returns (elems: seq<Cell>)
    ensures Distinct(elems)
    ensures forall c: Cell :: c in elems <==>
      InGrid(c) && (c.0 != x || c.1 != y) && x - 1 <= c.0 <= x + 1 && y - 1 <= c.1 <= y + 1
  {
    elems := [];
    var xOff := -1;
    while xOff <= 1
      invariant -1 <= xOff <= 2
      invariant Distinct(elems)
      invariant forall c: Cell :: c in elems <==>
        InGrid(c) && (c.0 != x || c.1 != y) && x - 1 <= c.0 < x + xOff && y - 1 <= c.1 <= y + 1
    {
      var yOff := -1;
      while yOff <= 1
        invariant -1 <= yOff <= 2
        invariant Distinct(elems)
        invariant forall c: Cell :: c in elems <==>
          InGrid(c) && (c.0 != x || c.1 != y) && y - 1 <= c.1 <= y + 1
          && (x - 1 <= c.0 < x + xOff || (c.0 == x + xOff && c.1 < y + yOff))
      {
        var xIdx, yIdx := x + xOff, y + yOff;
        if (x, y) != (xIdx, yIdx) && 0 <= xIdx < Size && 0 <= yIdx < Size {
          DistinctSnoc(elems, (xIdx, yIdx));
          elems := elems + [(xIdx, yIdx)];
        }
        yOff := yOff + 1;
      }
      xOff := xOff + 1;
    }
  }

  lemma DistinctSnoc<T>(s: seq<T>, x: T)
    requires Distinct(s) && x !in s
    ensures Distinct(s + [x])
  {
  }

  // ---------------------------------------------------------------------
  // iterate

  /** How many of the first `k` flashes of `order` happened next to `c`. */
  function Flashes(order: seq<Cell>, k: nat, c: Cell): (r: nat)
    requires k <= |order|
    ensures r <= k
  {
    if k == 0 then 0 else Flashes(order, k - 1, c) + (if Near(order[k - 1], c) then 1 else 0)
  }

  /**
   * The `k`-th flash of `order` was due: the octopus's level `g` plus `extra`
   * plus the flashes next to it before its own exceeds 9.
   */
  ghost predicate Justified(g: Levels, order: seq<Cell>, k: nat, extra: int)
    requires k < |order|
  {
    IsLevels(g) && InGrid(order[k]) && Level(g, order[k]) + extra + Flashes(order, k, order[k]) > 9
  }

  /**
   * One step, from `before` to `after`, in which the octopuses of `order`
   * flashed in that order: each at most once, each because its level plus
   * one plus the flashes next to it before its own exceeded 9; exactly the
   * octopuses whose level plus one plus all the flashes next to them
   * exceeds 9 flashed; they end at 0 and the others at that sum.
   */
  ghost predicate StepRel(before: Levels, after: Levels, order: seq<Cell>) {
    IsLevels(before) && IsLevels(after) && Distinct(order)
    && (forall k :: 0 <= k < |order| ==> Justified(before, order, k, 1))
    && (forall c :: InGrid(c) ==> (c in order <==> Level(before, c) + 1 + Flashes(order, |order|, c) > 9))
    && (forall c :: InGrid(c) ==>
          Level(after, c) == if c in order then 0 else Level(before, c) + 1 + Flashes(order, |order|, c))
  }

  /** The first loop of `iterate`: every level goes up by one. */
  method IncrementAll(grid: array2<int>)
    requires grid.Length0 == Size && grid.Length1 == Size
    modifies grid
    ensures forall i, j :: 0 <= i < Size && 0 <= j < Size ==> grid[i, j] == old(grid[i, j]) + 1
  {
    var i := 0;
    while i < Size
      invariant 0 <= i <= Size
      invariant forall a, b :: 0 <= a < Size && 0 <= b < Size ==>
        grid[a, b] == old(grid[a, b]) + (if a < i then 1 else 0)
    {
      var j := 0;
      while j < Size
        invariant 0 <= j <= Size
        invariant forall a, b :: 0 <= a < Size && 0 <= b < Size ==>
          grid[a, b] == old(grid[a, b]) + (if a < i || (a == i && b < j) then 1 else 0)
      {
        grid[i, j] := grid[i, j] + 1;
        j := j + 1;
      }
      i := i + 1;
    }
  }

  /** The cells above 9 among the first `n` in row-major order. */
  function ReadyUpTo(g: Levels, n: nat): (r: seq<Cell>)
    requires IsLevels(g) && n <= Size * Size
    ensures |r| <= n
    ensures forall c: Cell :: c in r <==> InGrid(c) && c.0 * Size + c.1 < n && Level(g, c) > 9
  {
    if n == 0 then []
    else
      var c := ((n - 1) / Size, (n - 1) % Size);
      var init := ReadyUpTo(g, n - 1);
      ReadyStep(g, n, init);
      init + (if Level(g, c) > 9 then [c] else [])
  }

  /** Adding the cell at row-major index `n - 1` when it is above 9 extends the cells counted to the first `n`. */
  lemma ReadyStep(g: Levels, n: nat, init: seq<Cell>)
    requires IsLevels(g) && 0 < n <= Size * Size
    requires forall c: Cell :: c in init <==> InGrid(c) && c.0 * Size + c.1 < n - 1 && Level(g, c) > 9
    ensures InGrid(((n - 1) / Size, (n - 1) % Size))
    ensures var c := ((n - 1) / Size, (n - 1) % Size);
      forall d: Cell :: d in init + (if Level(g, c) > 9 then [c] else []) <==>
        InGrid(d) && d.0 * Size + d.1 < n && Level(g, d) > 9
  {
    var c := ((n - 1) / Size, (n - 1) % Size);
    forall d: Cell | InGrid(d)
      ensures d.0 * Size + d.1 == n - 1 <==> d == c
    {
    }
  }

  /** `ready`: every cell above 9. */
  function Ready(g: Levels): (r: seq<Cell>)
    requires IsLevels(g)
    ensures forall c: Cell :: c in r <==> InGrid(c) && Level(g, c) > 9
  {
    ReadyUpTo(g, Size * Size)
  }

  /** Raises each cell of `ns` by one. */
  method Raise(grid: array2<int>, ns: seq<Cell>)
    requires grid.Length0 == Size && grid.Length1 == Size
    requires Distinct(ns) && forall k :: 0 <= k < |ns| ==> InGrid(ns[k])
    modifies grid
    ensures forall i, j :: 0 <= i < Size && 0 <= j < Size ==>
      grid[i, j] == old(grid[i, j]) + (if (i, j) in ns then 1 else 0)
  {
    var k := 0;
    while k < |ns|
      invariant 0 <= k <= |ns|
      invariant forall i, j :: 0 <= i < Size && 0 <= j < Size ==>
        grid[i, j] == old(grid[i, j]) + (if (i, j) in ns[..k] then 1 else 0)
    {
      assert ns[..k + 1] == ns[..k] + [ns[k]];
      assert ns[k] !in ns[..k];
      grid[ns[k].0, ns[k].1] := grid[ns[k].0, ns[k].1] + 1;
      k := k + 1;
    }
    assert ns[..k] == ns;
  }

  /** `retain`: the cells of `ns` whose level is above 9. */
  function Hot(g: Levels, ns: seq<Cell>): (r: seq<Cell>)
    requires IsLevels(g) && forall k :: 0 <= k < |ns| ==> InGrid(ns[k])
    ensures forall c :: c in r <==> c in ns && Level(g, c) > 9
  {
    if ns == [] then []
    else
      var last := ns[|ns| - 1];
      Hot(g, ns[..|ns| - 1]) + (if Level(g, last) > 9 then [last] else [])
  }

  ghost function AllCells(): set<Cell> {
    set i: nat, j: nat | i < Size && j < Size :: (i, j)
  }

  /** Flashes the octopus at `elem`: raises its neighbours and returns those now above 9. */
  method FlashOne(grid: array2<int>, elem: Cell) returns (hot: seq<Cell>)
    requires grid.Length0 == Size && grid.Length1 == Size
    modifies grid
    ensures forall c: Cell :: InGrid(c) ==>
      Level(Snapshot(grid), c) == Level(old(Snapshot(grid)), c) + (if Near(elem, c) then 1 else 0)
    ensures forall c: Cell :: c in hot <==> InGrid(c) && Near(elem, c) && Level(Snapshot(grid), c) > 9
  {
    var ns := Neighbours(elem.0, elem.1);
    Raise(grid, ns);
    hot := Hot(Snapshot(grid), ns);
  }

  /**
   * What the cascade keeps true: `cur` is the start level plus the flashes
   * around each cell so far, every cell on the stack is above 9, every cell
   * above 9 has flashed or is on the stack, and each flash was justified.
   */
  ghost predicate CascadeInv(g0: Levels, cur: Levels, order: seq<Cell>, flashed: set<Cell>, toFlash: seq<Cell>) {
    IsLevels(g0) && IsLevels(cur)
    && flashed == Elems(order) && Distinct(order)
    && (forall k :: 0 <= k < |order| ==> InGrid(order[k]))
    && (forall c :: InGrid(c) ==> Level(cur, c) == Level(g0, c) + Flashes(order, |order|, c))
    && (forall k :: 0 <= k < |toFlash| ==> InGrid(toFlash[k]) && Level(cur, toFlash[k]) > 9)
    && (forall c :: InGrid(c) && Level(cur, c) > 9 ==> c in flashed || c in toFlash)
    && (forall k :: 0 <= k < |order| ==> Justified(g0, order, k, 0))
  }

  /**
   * The `while let Some(elem) = to_flash.pop()` loop: pops a cell, and when
   * it has not flashed yet, flashes it and pushes the neighbours now above
   * 9. Returns how many flashed.
   */
  method Cascade(grid: array2<int>, ready: seq<Cell>) returns (count: nat, ghost order: seq<Cell>)
    requires grid.Length0 == Size && grid.Length1 == Size
    requires forall c: Cell :: c in ready <==> InGrid(c) && Level(Snapshot(grid), c) > 9
    modifies grid
    ensures count == |order| && Distinct(order)
    ensures forall k :: 0 <= k < |order| ==> Justified(old(Snapshot(grid)), order, k, 0)
    ensures forall c: Cell :: InGrid(c) ==>
      Level(Snapshot(grid), c) == Level(old(Snapshot(grid)), c) + Flashes(order, |order|, c)
    ensures forall c: Cell :: InGrid(c) ==> (c in order <==> Level(Snapshot(grid), c) > 9)
  {
    ghost var g0 := Snapshot(grid);
    var toFlash := ready;
    var flashed: set<Cell> := {};
    order := [];
    while toFlash != []
      invariant CascadeInv(g0, Snapshot(grid), order, flashed, toFlash)
      invariant flashed <= AllCells()
      decreases |AllCells() - flashed|, |toFlash|
    {
      var elem := toFlash[|toFlash| - 1];
      if elem !in flashed {
        ghost var cur := Snapshot(grid);
        var hot := FlashOne(grid, elem);
        CascadeFlash(g0, cur, Snapshot(grid), order, flashed, toFlash, hot);
        Progress(flashed, elem);
        toFlash := toFlash[..|toFlash| - 1] + hot;
        flashed := flashed + {elem};
        order := order + [elem];
      } else {
        CascadeSkip(g0, Snapshot(grid), order, flashed, toFlash);
        toFlash := toFlash[..|toFlash| - 1];
      }
    }
    CascadeEnd(g0, Snapshot(grid), order, flashed);
    DistinctCount(order);
    count := |flashed|;
  }

  /** Popping a cell that already flashed changes nothing else. */
  lemma CascadeSkip(g0: Levels, cur: Levels, order: seq<Cell>, flashed: set<Cell>, toFlash: seq<Cell>)
    requires CascadeInv(g0, cur, order, flashed, toFlash)
    requires toFlash != [] && toFlash[|toFlash| - 1] in flashed
    ensures CascadeInv(g0, cur, order, flashed, toFlash[..|toFlash| - 1])
  {
    var rest := toFlash[..|toFlash| - 1];
    assert toFlash == rest + [toFlash[|toFlash| - 1]];
  }

  /** Flashing a popped cell that has not flashed yet keeps the invariant and makes progress. */
  lemma CascadeFlash(g0: Levels, cur: Levels, cur': Levels, order: seq<Cell>, flashed: set<Cell>,
                     toFlash: seq<Cell>, hot: seq<Cell>)
    requires CascadeInv(g0, cur, order, flashed, toFlash)
    requires toFlash != [] && toFlash[|toFlash| - 1] !in flashed
    requires IsLevels(cur')
    requires var elem := toFlash[|toFlash| - 1];
      forall c: Cell :: InGrid(c) ==> Level(cur', c) == Level(cur, c) + (if Near(elem, c) then 1 else 0)
    requires var elem := toFlash[|toFlash| - 1];
      forall c: Cell :: c in hot <==> InGrid(c) && Near(elem, c) && Level(cur', c) > 9
    ensures var elem := toFlash[|toFlash| - 1];
      CascadeInv(g0, cur', order + [elem], flashed + {elem}, toFlash[..|toFlash| - 1] + hot)
  {
    var elem := toFlash[|toFlash| - 1];
    var order' := order + [elem];
    var rest := toFlash[..|toFlash| - 1];
    assert toFlash == rest + [elem];
    assert Elems(order') == Elems(order) + {elem};
    assert elem !in order;
    forall c: Cell | InGrid(c)
      ensures Flashes(order', |order'|, c) == Flashes(order, |order|, c) + (if Near(elem, c) then 1 else 0)
    {
      FlashesPrefix(order, elem, |order|, c);
    }
    forall k | 0 <= k < |order'|
      ensures Justified(g0, order', k, 0)
    {
      FlashesPrefix(order, elem, k, order'[k]);
      if k < |order| {
        assert Justified(g0, order, k, 0);
      }
    }
  }

  /** Adding a cell of the grid to the flashed set shrinks what is left. */
  lemma Progress(flashed: set<Cell>, elem: Cell)
    requires flashed <= AllCells() && InGrid(elem) && elem !in flashed
    ensures flashed + {elem} <= AllCells()
    ensures |AllCells() - (flashed + {elem})| < |AllCells() - flashed|
  {
    assert elem in AllCells();
    assert AllCells() - (flashed + {elem}) == (AllCells() - flashed) - {elem};
  }

  /** When the stack is empty, exactly the cells above 9 have flashed. */
  lemma CascadeEnd(g0: Levels, cur: Levels, order: seq<Cell>, flashed: set<Cell>)
    requires CascadeInv(g0, cur, order, flashed, [])
    ensures forall c: Cell :: InGrid(c) ==> (c in order <==> Level(cur, c) > 9)
  {
    forall k | 0 <= k < |order| ensures Level(cur, order[k]) > 9 {
      assert Justified(g0, order, k, 0);
      FlashesMono(order, k, |order|, order[k]);
    }
  }

  /** Flashes counted in a prefix do not change when the sequence grows. */
  lemma {:induction false} FlashesPrefix(order: seq<Cell>, e: Cell, k: nat, c: Cell)
    requires k <= |order|
    ensures Flashes(order + [e], k, c) == Flashes(order, k, c)
  {
    if k > 0 {
      FlashesPrefix(order, e, k - 1, c);
      assert (order + [e])[k - 1] == order[k - 1];
    }
  }

  /** Counting over a longer prefix never counts fewer flashes. */
  lemma {:induction false} FlashesMono(order: seq<Cell>, k: nat, m: nat, c: Cell)
    requires k <= m <= |order|
    ensures Flashes(order, k, c) <= Flashes(order, m, c)
    decreases m - k
  {
    if k < m {
      FlashesMono(order, k, m - 1, c);
    }
  }

  /** The last loop of `iterate`: every level above 9 drops to 0. */
  method ResetFlashed(grid: array2<int>)
    requires grid.Length0 == Size && grid.Length1 == Size
    modifies grid
    ensures forall i, j :: 0 <= i < Size && 0 <= j < Size ==>
      grid[i, j] == if old(grid[i, j]) > 9 then 0 else old(grid[i, j])
  {
    var i := 0;
    while i < Size
      invariant 0 <= i <= Size
      invariant forall a, b :: 0 <= a < Size && 0 <= b < Size ==>
        grid[a, b] == if a < i && old(grid[a, b]) > 9 then 0 else old(grid[a, b])
    {
      var j := 0;
      while j < Size
        invariant 0 <= j <= Size
        invariant forall a, b :: 0 <= a < Size && 0 <= b < Size ==>
          grid[a, b] == if (a < i || (a == i && b < j)) && old(grid[a, b]) > 9 then 0 else old(grid[a, b])
      {
        if grid[i, j] > 9 {
          grid[i, j] := 0;
        }
        j := j + 1;
      }
      i := i + 1;
    }
  }

  /** `iterate`: one step on the grid, returning how many octopuses flashed. */
  method Iterate(grid: array2<int>) returns (count: nat, ghost order: seq<Cell>)
    requires grid.Length0 == Size && grid.Length1 == Size
    modifies grid
    ensures count == |order|
    ensures StepRel(old(Snapshot(grid)), Snapshot(grid), order)
  {
    ghost var before := Snapshot(grid);
    IncrementAll(grid);
    ghost var inc := Snapshot(grid);
    var ready := Ready(Snapshot(grid));
    count, order := Cascade(grid, ready);
    ghost var raised := Snapshot(grid);
    ResetFlashed(grid);
    StepFromPhases(before, inc, raised, Snapshot(grid), order);
  }

  /** The three phases of `iterate` together make one step. */
  lemma StepFromPhases(before: Levels, inc: Levels, raised: Levels, after: Levels, order: seq<Cell>)
    requires IsLevels(before) && IsLevels(inc) && IsLevels(raised) && IsLevels(after) && Distinct(order)
    requires forall c: Cell :: InGrid(c) ==> Level(inc, c) == Level(before, c) + 1
    requires forall k :: 0 <= k < |order| ==> Justified(inc, order, k, 0)
    requires forall c: Cell :: InGrid(c) ==> Level(raised, c) == Level(inc, c) + Flashes(order, |order|, c)
    requires forall c: Cell :: InGrid(c) ==> (c in order <==> Level(raised, c) > 9)
    requires forall c: Cell :: InGrid(c) ==> Level(after, c) == if Level(raised, c) > 9 then 0 else Level(raised, c)
    ensures StepRel(before, after, order)
  {
    forall k | 0 <= k < |order| ensures Justified(before, order, k, 1) {
      assert Justified(inc, order, k, 0);
    }
  }

  // ---------------------------------------------------------------------
  // What a step guarantees

  /** The octopuses of the first `k` flashes of `order`. */
  ghost function Seen(order: seq<Cell>, k: nat): set<Cell>
    requires k <= |order|
  {
    set j | 0 <= j < k :: order[j]
  }

  /** The octopuses of `s` next to `c`. */
  ghost function Around(s: set<Cell>, c: Cell): set<Cell> {
    set x | x in s && Near(x, c)
  }

  /** Without repeats, the flashes counted next to `c` are the flashed octopuses around it. */
  lemma {:induction false} FlashesAround(order: seq<Cell>, k: nat, c: Cell)
    requires Distinct(order) && k <= |order|
    ensures Flashes(order, k, c) == |Around(Seen(order, k), c)|
  {
    if k > 0 {
      FlashesAround(order, k - 1, c);
      SeenSnoc(order, k);
      AroundAdd(Seen(order, k - 1), order[k - 1], c);
    }
  }

  lemma AroundAdd(s: set<Cell>, e: Cell, c: Cell)
    requires e !in s
    ensures |Around(s + {e}, c)| == |Around(s, c)| + if Near(e, c) then 1 else 0
  {
    if Near(e, c) {
      assert Around(s + {e}, c) == Around(s, c) + {e};
    } else {
      assert Around(s + {e}, c) == Around(s, c);
    }
  }

  lemma SeenSnoc(order: seq<Cell>, k: nat)
    requires Distinct(order) && 0 < k <= |order|
    ensures Seen(order, k) == Seen(order, k - 1) + {order[k - 1]}
    ensures order[k - 1] !in Seen(order, k - 1)
  {
  }

  lemma AroundMono(s: set<Cell>, t: set<Cell>, c: Cell)
    requires s <= t
    ensures |Around(s, c)| <= |Around(t, c)|
  {
    assert Around(t, c) == Around(s, c) + (Around(t, c) - Around(s, c));
  }

  lemma SeenAll(order: seq<Cell>)
    ensures Seen(order, |order|) == Elems(order)
  {
    forall c | c in Elems(order) ensures c in Seen(order, |order|) {
      var j :| 0 <= j < |order| && order[j] == c;
    }
  }

  /**
   * Whatever one step flashes, another step from the same levels flashes
   * too: each flash of `o1` is justified by flashes that, by induction, are
   * all in `o2`, so the octopus is above 9 at the end of `o2` as well.
   */
  lemma {:induction false} FlashedInOther(before: Levels, a1: Levels, o1: seq<Cell>, a2: Levels, o2: seq<Cell>, k: nat)
    requires StepRel(before, a1, o1) && StepRel(before, a2, o2) && k <= |o1|
    ensures Seen(o1, k) <= Elems(o2)
  {
    if k > 0 {
      FlashedInOther(before, a1, o1, a2, o2, k - 1);
      var c := o1[k - 1];
      assert Justified(before, o1, k - 1, 1);
      FlashesAround(o1, k - 1, c);
      FlashesAround(o2, |o2|, c);
      SeenAll(o2);
      AroundMono(Seen(o1, k - 1), Seen(o2, |o2|), c);
      assert c in o2;
      assert Seen(o1, k) == Seen(o1, k - 1) + {c};
    }
  }

  lemma LevelsEq(a: Levels, b: Levels)
    requires IsLevels(a) && IsLevels(b)
    requires forall c: Cell :: InGrid(c) ==> Level(a, c) == Level(b, c)
    ensures a == b
  {
    forall i | 0 <= i < Size ensures a[i] == b[i] {
      forall j | 0 <= j < Size ensures a[i][j] == b[i][j] {
        assert Level(a, (i, j)) == Level(b, (i, j));
      }
    }
  }

  /**
   * The order in which the stack pops octopuses does not matter: two steps
   * from the same levels flash the same octopuses, as many of them, and end
   * at the same levels.
   */
  lemma StepDetermined(before: Levels, a1: Levels, o1: seq<Cell>, a2: Levels, o2: seq<Cell>)
    requires StepRel(before, a1, o1) && StepRel(before, a2, o2)
    ensures Elems(o1) == Elems(o2) && |o1| == |o2| && a1 == a2
  {
    FlashedInOther(before, a1, o1, a2, o2, |o1|);
    FlashedInOther(before, a2, o2, a1, o1, |o2|);
    SeenAll(o1);
    SeenAll(o2);
    DistinctCount(o1);
    DistinctCount(o2);
    assert Seen(o1, |o1|) == Seen(o2, |o2|);
    forall c: Cell | InGrid(c) ensures Level(a1, c) == Level(a2, c) {
      assert c in o1 <==> c in Elems(o1);
      assert c in o2 <==> c in Elems(o2);
      FlashesAround(o1, |o1|, c);
      FlashesAround(o2, |o2|, c);
      assert Flashes(o1, |o1|, c) == Flashes(o2, |o2|, c);
      assert (c in o1) == (c in o2);
    }
    LevelsEq(a1, a2);
  }

  /**
   * After a step from non-negative levels every level is between 0 and 9,
   * and at most the 100 octopuses of the grid flashed.
   */
  lemma StepBounds(before: Levels, after: Levels, order: seq<Cell>)
    requires StepRel(before, after, order)
    requires forall c: Cell :: InGrid(c) ==> Level(before, c) >= 0
    ensures forall c: Cell :: InGrid(c) ==> 0 <= Level(after, c) <= 9
    ensures |order| <= Size * Size
  {
    var all := ReadyUpTo(seq(Size, i => seq(Size, j => Size)), Size * Size);
    forall c | c in Elems(order) ensures c in Elems(all) {
      var k :| 0 <= k < |order| && order[k] == c;
      assert Justified(before, order, k, 1);
    }
    DistinctCount(order);
    DistinctCount(all);
    assert Elems(all) == Elems(order) + (Elems(all) - Elems(order));
  }

  // ---------------------------------------------------------------------
  // part1 and part2

  /** `states[i + 1]` follows `states[i]` by a step in which `orders[i]` flashed. */
  ghost predicate IsRun(states: seq<Levels>, orders: seq<seq<Cell>>) {
    |states| == |orders| + 1 && IsLevels(states[0])
    && forall i :: 0 <= i < |orders| ==> StepRel(states[i], states[i + 1], orders[i])
  }

  /** The number of flashes over all the steps. */
  function TotalFlashes(orders: seq<seq<Cell>>): nat {
    if orders == [] then 0 else TotalFlashes(orders[..|orders| - 1]) + |orders[|orders| - 1]|
  }

  lemma RunSnoc(states: seq<Levels>, orders: seq<seq<Cell>>, next: Levels, order: seq<Cell>)
    requires IsRun(states, orders) && StepRel(states[|states| - 1], next, order)
    ensures IsRun(states + [next], orders + [order])
  {
    var states', orders' := states + [next], orders + [order];
    forall i | 0 <= i < |orders'| ensures StepRel(states'[i], states'[i + 1], orders'[i]) {
      if i < |orders| {
        assert states'[i] == states[i] && states'[i + 1] == states[i + 1] && orders'[i] == orders[i];
      }
    }
  }

  /** A fresh 10×10 array holding `start`. */
  method Load(start: Levels) returns (grid: array2<int>)
    requires IsLevels(start)
    ensures fresh(grid) && grid.Length0 == Size && grid.Length1 == Size
    ensures Snapshot(grid) == start
  {
    grid := new int[Size, Size]((i, j) requires 0 <= i < Size && 0 <= j < Size => start[i][j]);
    forall c: Cell | InGrid(c) ensures Level(Snapshot(grid), c) == Level(start, c) {
    }
    LevelsEq(Snapshot(grid), start);
  }

  /** `part1`: the flashes over the first 100 steps. */
  method Part1(start: Levels) returns (r: nat, ghost states: seq<Levels>, ghost orders: seq<seq<Cell>>)
    requires IsLevels(start)
    ensures IsRun(states, orders) && states[0] == start && |orders| == 100
    ensures r == TotalFlashes(orders)
  {
    var grid := Load(start);
    r, states, orders := 0, [start], [];
    for step := 0 to 100
      invariant IsRun(states, orders) && states[0] == start && |orders| == step
      invariant Snapshot(grid) == states[|states| - 1]
      invariant r == TotalFlashes(orders)
    {
      var count;
      ghost var order;
      count, order := Iterate(grid);
      RunSnoc(states, orders, Snapshot(grid), order);
      assert (orders + [order])[..|orders|] == orders;
      states, orders := states + [Snapshot(grid)], orders + [order];
      r := r + count;
    }
  }

  /** Over a run from non-negative levels, at most 100 octopuses flash per step. */
  lemma {:induction false} TotalFlashesBound(states: seq<Levels>, orders: seq<seq<Cell>>)
    requires IsRun(states, orders)
    requires forall c: Cell :: InGrid(c) ==> Level(states[0], c) >= 0
    ensures TotalFlashes(orders) <= Size * Size * |orders|
    ensures forall c: Cell :: InGrid(c) ==> Level(states[|states| - 1], c) >= 0
  {
    if orders != [] {
      var n := |orders| - 1;
      assert IsRun(states[..n + 1], orders[..n]);
      TotalFlashesBound(states[..n + 1], orders[..n]);
      assert StepRel(states[n], states[n + 1], orders[n]);
      StepBounds(states[n], states[n + 1], orders[n]);
    }
  }

  /**
   * `part2`: the first step in which all 100 octopuses flash, counting from
   * 1. The source loops until it finds one; here the search gives up with
   * `None` after `fuel` steps.
   */
  method Part2(start: Levels, fuel: nat) returns (r: Option<nat>, ghost states: seq<Levels>, ghost orders: seq<seq<Cell>>)
    requires IsLevels(start)
    ensures IsRun(states, orders) && states[0] == start
    ensures forall i :: 0 <= i < |orders| - 1 ==> |orders[i]| != Size * Size
    ensures r.Some? ==> r.value == |orders| >= 1 && |orders[|orders| - 1]| == Size * Size
    ensures r.None? ==> |orders| == fuel && forall i :: 0 <= i < fuel ==> |orders[i]| != Size * Size
  {
    var grid := Load(start);
    states, orders := [start], [];
    var iterationCount: nat := 0;
    while iterationCount < fuel
      invariant IsRun(states, orders) && states[0] == start && |orders| == iterationCount <= fuel
      invariant Snapshot(grid) == states[|states| - 1]
      invariant forall i :: 0 <= i < iterationCount ==> |orders[i]| != Size * Size
    {
      iterationCount := iterationCount + 1;
      var count;
      ghost var order;
      count, order := Iterate(grid);
      RunSnoc(states, orders, Snapshot(grid), order);
      states, orders := states + [Snapshot(grid)], orders + [order];
      if count == Size * Size {
        return Some(iterationCount), states, orders;
      }
    }
    r := None;
  }
}
