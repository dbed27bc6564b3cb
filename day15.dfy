/**
 * Day 15: Chiton. A square map of risk levels, optionally tiled five times
 * in each direction with the levels raised by the tile's distance, is
 * crossed from the top left to the bottom right corner; `traverse` is
 * Dijkstra's algorithm over a `HashMap` of candidate positions and a
 * `HashSet` of settled ones, and returns the lowest total risk of a route.
 */
module Day15 {
  import opened Common

  /** `(usize, usize)`: the first coordinate selects the row of the map. */
  type Pos = (nat, nat)

  // ---------------------------------------------------------------------
  // parse_input and the tiled map

  /** `parse_input`: every character through `char_to_digit`; `None` where that panics. */
  function ParseInput(lines: seq<string>): (r: Option<seq<seq<int>>>)
    ensures r.Some? <==> forall i :: 0 <= i < |lines| ==> ByteDigits(lines[i]).Some?
    ensures r.Some? ==> |r.value| == |lines|
    ensures r.Some? ==> forall i :: 0 <= i < |lines| ==> r.value[i] == ByteDigits(lines[i]).value
  {
    if lines == [] then Some([])
    else
      match (ParseInput(lines[..|lines| - 1]), ByteDigits(lines[|lines| - 1]))
      case (Some(init), Some(row)) => Some(init + [row])
      case _ => None
  }

  /**
   * A map `traverse` can index: `n` rows of `n` non-negative levels, `n > 0`.
   * (Indexing a shorter row panics; an empty map underflows `dim - 1`.)
   */
  predicate IsMap(grid: seq<seq<int>>) {
    |grid| > 0 && forall i :: 0 <= i < |grid| ==> |grid[i]| == |grid| && forall j :: 0 <= j < |grid| ==> grid[i][j] >= 0
  }

  /** The level of the original map the tiled position `p` copies. */
  function Base(grid: seq<seq<int>>, p: Pos): (v: nat)
    requires IsMap(grid)
  {
    grid[p.0 % |grid|][p.1 % |grid|]
  }

  /** How far down and right of the original map the tile of `p` lies. */
  function Shift(grid: seq<seq<int>>, p: Pos): nat
    requires IsMap(grid)
  {
    p.0 / |grid| + p.1 / |grid|
  }

  /** The `u32` expression `base + shift - 1` does not underflow. */
  predicate Computable(grid: seq<seq<int>>, p: Pos)
    requires IsMap(grid)
  {
    Base(grid, p) + Shift(grid, p) >= 1
  }

  /**
   * The risk of entering `p`: `(base + shift - 1) % 9 + 1`. It lies in
   * 1..=9, is congruent to `base + shift` modulo 9 (a level raised past 9
   * wraps around to 1), and on the original tile is the level itself.
   */
  function Risk(grid: seq<seq<int>>, p: Pos): (r: nat)
    requires IsMap(grid) && Computable(grid, p)
    ensures 1 <= r <= 9
    ensures r % 9 == (Base(grid, p) + Shift(grid, p)) % 9
    ensures Shift(grid, p) == 0 && Base(grid, p) <= 9 ==> r == Base(grid, p)
  {
    (Base(grid, p) + Shift(grid, p) - 1) % 9 + 1
  }

  // ---------------------------------------------------------------------
  // get_neighbours

  predicate InRange(p: Pos, dim: nat) {
    p.0 < dim && p.1 < dim
  }

  /** `p` and `q` differ by one in exactly one coordinate. */
  predicate Adjacent(p: Pos, q: Pos) {
    (p.0 == q.0 && (p.1 == q.1 + 1 || q.1 == p.1 + 1)) || (p.1 == q.1 && (p.0 == q.0 + 1 || q.0 == p.0 + 1))
  }

  /**
   * `get_neighbours`: right, left, up, down, dropping a coordinate that
   * would leave `0..dim`. Every result is adjacent to `pos`; for `pos`
   * inside the square, the results are exactly its adjacent positions
   * inside the square.
   */
  function Neighbours(pos: Pos, dim: nat): (r: seq<Pos>)
    ensures |r| <= 4
    ensures forall q :: q in r ==> Adjacent(pos, q)
    ensures InRange(pos, dim) ==> forall q :: q in r <==> Adjacent(pos, q) && InRange(q, dim)
  {
    (if pos.0 + 1 < dim then [(pos.0 + 1, pos.1)] else [])
    + (if pos.0 > 0 then [(pos.0 - 1, pos.1)] else [])
    + (if pos.1 + 1 < dim then [(pos.0, pos.1 + 1)] else [])
    + (if pos.1 > 0 then [(pos.0, pos.1 - 1)] else [])
  }

  // ---------------------------------------------------------------------
  // Routes and their risk

  /** A route from the top left corner through adjacent positions of the `dim` square, never through an underflowing level. */
  ghost predicate IsRoute(grid: seq<seq<int>>, dim: nat, path: seq<Pos>)
    requires IsMap(grid)
  {
    |path| > 0 && path[0] == (0, 0) && InRange(path[0], dim)
    && (forall i :: 0 < i < |path| ==> InRange(path[i], dim) && Computable(grid, path[i]))
    && (forall i :: 0 < i < |path| ==> Adjacent(path[i - 1], path[i]))
  }

  /** The total risk of a route: the risks of the positions it enters (the start is not counted). */
  ghost function PathRisk(grid: seq<seq<int>>, dim: nat, path: seq<Pos>): (r: nat)
    requires IsMap(grid) && IsRoute(grid, dim, path)
    ensures r >= |path| - 1
  {
    if |path| == 1 then 0
    else
      assert IsRoute(grid, dim, path[..|path| - 1]);
      PathRisk(grid, dim, path[..|path| - 1]) + Risk(grid, path[|path| - 1])
  }

  /** `route` leads to `p` with total risk `cost`. */
  ghost predicate RouteTo(grid: seq<seq<int>>, dim: nat, route: seq<Pos>, p: Pos, cost: nat)
    requires IsMap(grid)
  {
    IsRoute(grid, dim, route) && route[|route| - 1] == p && PathRisk(grid, dim, route) == cost
  }

  /** `path` is a route ending at `p`. */
  ghost predicate RouteEndsAt(grid: seq<seq<int>>, dim: nat, path: seq<Pos>, p: Pos)
    requires IsMap(grid)
  {
    IsRoute(grid, dim, path) && path[|path| - 1] == p
  }

  /** No route to `p` has a total risk below `cost`. */
  ghost predicate LowerBound(grid: seq<seq<int>>, dim: nat, p: Pos, cost: nat)
    requires IsMap(grid)
  {
    forall path :: RouteEndsAt(grid, dim, path, p) ==> PathRisk(grid, dim, path) >= cost
  }

  /** `cost` is the lowest total risk of a route to `p`. */
  ghost predicate Shortest(grid: seq<seq<int>>, dim: nat, p: Pos, cost: nat)
    requires IsMap(grid)
  {
    (exists route :: RouteTo(grid, dim, route, p, cost)) && LowerBound(grid, dim, p, cost)
  }

  /** The lowest total risk is unique. */
  lemma ShortestUnique(grid: seq<seq<int>>, dim: nat, p: Pos, c1: nat, c2: nat)
    requires IsMap(grid) && Shortest(grid, dim, p, c1) && Shortest(grid, dim, p, c2)
    ensures c1 == c2
  {
    var r1 :| RouteTo(grid, dim, r1, p, c1);
    var r2 :| RouteTo(grid, dim, r2, p, c2);
    assert RouteEndsAt(grid, dim, r1, p) && RouteEndsAt(grid, dim, r2, p);
  }

  /** Extending a route by an adjacent, computable position adds that position's risk. */
  lemma RouteSnoc(grid: seq<seq<int>>, dim: nat, route: seq<Pos>, p: Pos, cost: nat, q: Pos)
    requires IsMap(grid) && RouteTo(grid, dim, route, p, cost)
    requires Adjacent(p, q) && InRange(q, dim) && Computable(grid, q)
    ensures RouteTo(grid, dim, route + [q], q, cost + Risk(grid, q))
  {
    var longer := route + [q];
    assert longer[..|longer| - 1] == route;
  }

  // ---------------------------------------------------------------------
  // The state of traverse

  /** Every candidate's cost is the total risk of a recorded route to it. */
  ghost predicate Witnessed(grid: seq<seq<int>>, dim: nat, candidates: map<Pos, nat>, routes: map<Pos, seq<Pos>>)
    requires IsMap(grid)
  {
    forall p :: p in candidates ==> p in routes && RouteTo(grid, dim, routes[p], p, candidates[p])
  }

  /**
   * Every neighbour of the settled position `d` that is not settled itself
   * is a candidate, at a cost no higher than through `d`.
   */
  ghost predicate Covered(grid: seq<seq<int>>, dim: nat, done: set<Pos>, candidates: map<Pos, nat>, d: Pos, cost: nat)
    requires IsMap(grid)
  {
    forall u :: u in Neighbours(d, dim) && u !in done ==>
      u in candidates && Computable(grid, u) && candidates[u] <= cost + Risk(grid, u)
  }

  /** Some candidate costs at most `cost`. */
  ghost predicate HasCheaper(candidates: map<Pos, nat>, cost: nat) {
    exists u :: u in candidates && candidates[u] <= cost
  }

  /**
   * The loop invariant of `traverse`: candidates are unsettled positions of
   * the square with witnessed costs, the destination is not settled, the
   * start is settled or a candidate at cost 0, and every settled position
   * has its lowest total risk recorded and its neighbours covered.
   */
  ghost predicate Searching(grid: seq<seq<int>>, dim: nat, candidates: map<Pos, nat>, done: set<Pos>,
                            doneCost: map<Pos, nat>, routes: map<Pos, seq<Pos>>)
    requires IsMap(grid)
  {
    dim > 0
    && (forall p :: p in candidates ==> p !in done && InRange(p, dim))
    && (forall p :: p in done ==> InRange(p, dim))
    && (dim - 1, dim - 1) !in done
    && Witnessed(grid, dim, candidates, routes)
    && Frontier(grid, dim, candidates, done, doneCost)
  }

  /**
   * The start is settled or a candidate at cost 0, and every settled
   * position has its lowest total risk recorded and its neighbours covered.
   */
  ghost predicate Frontier(grid: seq<seq<int>>, dim: nat, candidates: map<Pos, nat>, done: set<Pos>, doneCost: map<Pos, nat>)
    requires IsMap(grid)
  {
    ((0, 0) in done || ((0, 0) in candidates && candidates[(0, 0)] == 0))
    && (forall d :: d in done ==> d in doneCost && LowerBound(grid, dim, d, doneCost[d])
                                  && Covered(grid, dim, done, candidates, d, doneCost[d]))
  }

  /**
   * Every route to an unsettled position leaves the settled ones through a
   * candidate, so some candidate costs no more than the route.
   */
  lemma {:induction false} CandidateOnRoute(grid: seq<seq<int>>, dim: nat, candidates: map<Pos, nat>, done: set<Pos>,
                                            doneCost: map<Pos, nat>, path: seq<Pos>)
    requires IsMap(grid) && Frontier(grid, dim, candidates, done, doneCost)
    requires IsRoute(grid, dim, path) && path[|path| - 1] !in done
    ensures HasCheaper(candidates, PathRisk(grid, dim, path))
  {
    var v := path[|path| - 1];
    if |path| == 1 {
      assert (0, 0) in candidates && candidates[(0, 0)] <= PathRisk(grid, dim, path);
    } else {
      var prefix := path[..|path| - 1];
      var prev := path[|path| - 2];
      assert RouteEndsAt(grid, dim, prefix, prev);
      if prev !in done {
        CandidateOnRoute(grid, dim, candidates, done, doneCost, prefix);
      } else {
        assert v in Neighbours(prev, dim);
        assert Covered(grid, dim, done, candidates, prev, doneCost[prev]);
        assert PathRisk(grid, dim, prefix) >= doneCost[prev];
      }
    }
  }

  /** The cheapest candidate's cost is its lowest total risk. */
  lemma CheapestIsShortest(grid: seq<seq<int>>, dim: nat, candidates: map<Pos, nat>, done: set<Pos>,
                           doneCost: map<Pos, nat>, routes: map<Pos, seq<Pos>>, pos: Pos)
    requires IsMap(grid) && Searching(grid, dim, candidates, done, doneCost, routes)
    requires pos in candidates && forall q :: q in candidates ==> candidates[pos] <= candidates[q]
    ensures Shortest(grid, dim, pos, candidates[pos])
  {
    forall path | RouteEndsAt(grid, dim, path, pos)
      ensures PathRisk(grid, dim, path) >= candidates[pos]
    {
      CandidateOnRoute(grid, dim, candidates, done, doneCost, path);
    }
    assert RouteTo(grid, dim, routes[pos], pos, candidates[pos]);
  }

  /** Settling the cheapest candidate and relaxing its neighbours keeps the invariant. */
  lemma Settle(grid: seq<seq<int>>, dim: nat, candidates: map<Pos, nat>, done: set<Pos>,
               doneCost: map<Pos, nat>, routes: map<Pos, seq<Pos>>, pos: Pos,
               next: map<Pos, nat>, nextRoutes: map<Pos, seq<Pos>>)
    requires IsMap(grid) && Searching(grid, dim, candidates, done, doneCost, routes)
    requires pos in candidates && forall q :: q in candidates ==> candidates[pos] <= candidates[q]
    requires pos != (dim - 1, dim - 1)
    requires Witnessed(grid, dim, next, nextRoutes)
    requires forall p :: p in candidates && p != pos ==> p in next && next[p] <= candidates[p]
    requires forall p :: p in next ==> (p in candidates && p != pos) || (p in Neighbours(pos, dim) && p !in done + {pos})
    requires Covered(grid, dim, done + {pos}, next, pos, candidates[pos])
    ensures Searching(grid, dim, next, done + {pos}, doneCost[pos := candidates[pos]], nextRoutes)
  {
    var cost := candidates[pos];
    CheapestIsShortest(grid, dim, candidates, done, doneCost, routes, pos);
    var done' := done + {pos};
    var doneCost' := doneCost[pos := cost];
    SettledCovered(grid, dim, candidates, done, doneCost, routes, pos, next);
    StartSettled(grid, dim, candidates, done, doneCost, routes, pos);
    assert Searching(grid, dim, next, done', doneCost', nextRoutes);
  }

  /** After settling `pos`, every settled position has its lowest total risk recorded and its neighbours covered. */
  lemma SettledCovered(grid: seq<seq<int>>, dim: nat, candidates: map<Pos, nat>, done: set<Pos>,
                       doneCost: map<Pos, nat>, routes: map<Pos, seq<Pos>>, pos: Pos, next: map<Pos, nat>)
    requires IsMap(grid) && Searching(grid, dim, candidates, done, doneCost, routes)
    requires pos in candidates && Shortest(grid, dim, pos, candidates[pos])
    requires forall p :: p in candidates && p != pos ==> p in next && next[p] <= candidates[p]
    requires Covered(grid, dim, done + {pos}, next, pos, candidates[pos])
    ensures forall d :: d in done + {pos} ==>
      (d in doneCost[pos := candidates[pos]]
       && LowerBound(grid, dim, d, doneCost[pos := candidates[pos]][d])
       && Covered(grid, dim, done + {pos}, next, d, doneCost[pos := candidates[pos]][d]))
  {
    forall d | d in done && d != pos
      ensures Covered(grid, dim, done + {pos}, next, d, doneCost[d])
    {
      StillCovered(grid, dim, done, candidates, next, pos, d, doneCost[d]);
    }
  }

  /** A settled position stays covered when the cheapest candidate is settled and no cost rises. */
  lemma StillCovered(grid: seq<seq<int>>, dim: nat, done: set<Pos>, candidates: map<Pos, nat>, next: map<Pos, nat>,
                     pos: Pos, d: Pos, cost: nat)
    requires IsMap(grid) && Covered(grid, dim, done, candidates, d, cost)
    requires forall p :: p in candidates && p != pos ==> p in next && next[p] <= candidates[p]
    ensures Covered(grid, dim, done + {pos}, next, d, cost)
  {
  }

  /** The start is the only position of cost 0, so it is settled by the time any other position is. */
  lemma StartSettled(grid: seq<seq<int>>, dim: nat, candidates: map<Pos, nat>, done: set<Pos>,
                     doneCost: map<Pos, nat>, routes: map<Pos, seq<Pos>>, pos: Pos)
    requires IsMap(grid) && Searching(grid, dim, candidates, done, doneCost, routes)
    requires pos in candidates && forall q :: q in candidates ==> candidates[pos] <= candidates[q]
    ensures (0, 0) in done + {pos}
  {
    if (0, 0) !in done {
      var route := routes[pos];
      assert RouteTo(grid, dim, route, pos, candidates[pos]) && candidates[pos] <= candidates[(0, 0)];
      assert |route| == 1;
    }
  }

  /** The settled positions contain the start and are closed under neighbours, so they fill the square. */
  lemma {:induction false} FillsSquare(dim: nat, done: set<Pos>, x: nat, y: nat)
    requires (0, 0) in done
    requires forall d, u :: d in done && u in Neighbours(d, dim) ==> u in done
    requires forall d :: d in done ==> InRange(d, dim)
    requires x < dim && y < dim
    ensures (x, y) in done
    decreases x + y
  {
    if y > 0 {
      FillsSquare(dim, done, x, y - 1);
      assert (x, y) in Neighbours((x, y - 1), dim);
    } else if x > 0 {
      FillsSquare(dim, done, x - 1, y);
      assert (x, y) in Neighbours((x - 1, y), dim);
    }
  }

  // ---------------------------------------------------------------------
  // traverse

  /** The positions of the `dim` square. */
  function Square(dim: nat): (r: set<Pos>)
    ensures forall p :: p in r <==> InRange(p, dim)
  {
    set x: nat, y: nat | x < dim && y < dim :: (x, y)
  }

  /** `min_by_key` over the candidates: some candidate of lowest cost (the `HashMap` order decides which). */
  method Cheapest(candidates: map<Pos, nat>) returns (pos: Pos, cost: nat)
    requires candidates != map[]
    ensures pos in candidates && cost == candidates[pos]
    ensures forall q :: q in candidates ==> cost <= candidates[q]
  {
    var keys := candidates.Keys;
    pos :| pos in keys;
    cost := candidates[pos];
    keys := keys - {pos};
    while keys != {}
      invariant keys <= candidates.Keys
      invariant pos in candidates && cost == candidates[pos]
      invariant forall q :: q in candidates && q !in keys ==> cost <= candidates[q]
      decreases |keys|
    {
      var q :| q in keys;
      if candidates[q] < cost {
        pos, cost := q, candidates[q];
      }
      keys := keys - {q};
    }
  }

  /**
   * `candidates.entry(pos).or_insert(total)` followed by `min`: `pos` ends
   * up a candidate at no more than `total`, other candidates are kept, no
   * cost rises, and every cost keeps a witnessing route.
   */
  method Offer(grid: seq<seq<int>>, dim: nat, candidates: map<Pos, nat>, ghost routes: map<Pos, seq<Pos>>,
               pos: Pos, total: nat, ghost route: seq<Pos>)
    returns (next: map<Pos, nat>, ghost nextRoutes: map<Pos, seq<Pos>>)
    requires IsMap(grid) && Witnessed(grid, dim, candidates, routes) && RouteTo(grid, dim, route, pos, total)
    ensures Witnessed(grid, dim, next, nextRoutes)
    ensures pos in next && next[pos] <= total
    ensures forall p :: p in candidates ==> p in next && next[p] <= candidates[p]
    ensures forall p :: p in next ==> p in candidates || p == pos
  {
    if pos !in candidates || total < candidates[pos] {
      next, nextRoutes := candidates[pos := total], routes[pos := route];
    } else {
      next, nextRoutes := candidates, routes;
    }
  }

  /** One neighbour `u` of `pos` in the `for_each`: skipped when settled, otherwise offered at `cost` plus its risk. */
  method Consider(grid: seq<seq<int>>, dim: nat, pos: Pos, cost: nat, done: set<Pos>, candidates: map<Pos, nat>,
                  ghost routes: map<Pos, seq<Pos>>, ghost toPos: seq<Pos>, u: Pos)
    returns (ok: bool, next: map<Pos, nat>, ghost nextRoutes: map<Pos, seq<Pos>>)
    requires IsMap(grid) && InRange(pos, dim) && u in Neighbours(pos, dim)
    requires RouteTo(grid, dim, toPos, pos, cost)
    requires Witnessed(grid, dim, candidates, routes)
    ensures Witnessed(grid, dim, next, nextRoutes)
    ensures forall p :: p in candidates ==> p in next && next[p] <= candidates[p]
    ensures forall p :: p in next ==> p in candidates || (p == u && u !in done)
    ensures ok && u !in done ==> u in next && Computable(grid, u) && next[u] <= cost + Risk(grid, u)
    ensures !ok ==> !NoUnderflow(grid, dim)
  {
    next, nextRoutes := candidates, routes;
    if u in done {
      return true, next, nextRoutes;
    }
    if !Computable(grid, u) {
      return false, next, nextRoutes;
    }
    RouteSnoc(grid, dim, toPos, pos, cost, u);
    next, nextRoutes := Offer(grid, dim, next, nextRoutes, u, cost + Risk(grid, u), toPos + [u]);
    ok := true;
  }

  /**
   * The `for_each` over the unsettled neighbours of `pos`: each gets the
   * smaller of its candidate cost and `cost` plus its risk (`entry`,
   * `or_insert`, `min`). `ok` is false where a risk underflows, which
   * panics in the source. Costs only decrease, only unsettled neighbours
   * are added, and every candidate keeps a witnessing route.
   */
  method Relax(grid: seq<seq<int>>, dim: nat, pos: Pos, cost: nat, done: set<Pos>, candidates: map<Pos, nat>,
               ghost routes: map<Pos, seq<Pos>>, ghost toPos: seq<Pos>)
    returns (ok: bool, next: map<Pos, nat>, ghost nextRoutes: map<Pos, seq<Pos>>)
    requires IsMap(grid) && InRange(pos, dim)
    requires RouteTo(grid, dim, toPos, pos, cost)
    requires Witnessed(grid, dim, candidates, routes)
    ensures Witnessed(grid, dim, next, nextRoutes)
    ensures forall p :: p in candidates ==> p in next && next[p] <= candidates[p]
    ensures forall p :: p in next ==> p in candidates || (p in Neighbours(pos, dim) && p !in done)
    ensures ok ==> Covered(grid, dim, done, next, pos, cost)
    ensures !ok ==> !NoUnderflow(grid, dim)
  {
    var ns := Neighbours(pos, dim);
    next, nextRoutes := candidates, routes;
    for i := 0 to |ns|
      invariant Witnessed(grid, dim, next, nextRoutes)
      invariant forall p :: p in candidates ==> p in next && next[p] <= candidates[p]
      invariant forall p :: p in next ==> p in candidates || (p in ns && p !in done)
      invariant CoveredPrefix(grid, done, next, ns, i, cost)
    {
      ghost var before := next;
      ok, next, nextRoutes := Consider(grid, dim, pos, cost, done, next, nextRoutes, toPos, ns[i]);
      if !ok {
        return;
      }
      CoveredGrow(grid, done, before, next, ns, i, cost);
    }
    ok := true;
    CoveredAll(grid, dim, done, next, pos, cost, ns);
  }

  /** The unsettled positions among the first `i` of `ns` are candidates at most `cost` plus their risk. */
  ghost predicate CoveredPrefix(grid: seq<seq<int>>, done: set<Pos>, candidates: map<Pos, nat>, ns: seq<Pos>, i: nat,
                                cost: nat)
    requires IsMap(grid) && i <= |ns|
  {
    forall j :: 0 <= j < i && ns[j] !in done ==>
      ns[j] in candidates && Computable(grid, ns[j]) && candidates[ns[j]] <= cost + Risk(grid, ns[j])
  }

  /** Lowering candidate costs keeps a prefix covered, and covering `ns[i]` extends it. */
  lemma CoveredGrow(grid: seq<seq<int>>, done: set<Pos>, candidates: map<Pos, nat>, next: map<Pos, nat>,
                    ns: seq<Pos>, i: nat, cost: nat)
    requires IsMap(grid) && i < |ns| && CoveredPrefix(grid, done, candidates, ns, i, cost)
    requires forall p :: p in candidates ==> p in next && next[p] <= candidates[p]
    requires ns[i] !in done ==> ns[i] in next && Computable(grid, ns[i]) && next[ns[i]] <= cost + Risk(grid, ns[i])
    ensures CoveredPrefix(grid, done, next, ns, i + 1, cost)
  {
  }

  /** Every unsettled position of `ns`, listed in full, being covered is `Covered`. */
  lemma CoveredAll(grid: seq<seq<int>>, dim: nat, done: set<Pos>, candidates: map<Pos, nat>, pos: Pos, cost: nat,
                   ns: seq<Pos>)
    requires IsMap(grid) && ns == Neighbours(pos, dim)
    requires CoveredPrefix(grid, done, candidates, ns, |ns|, cost)
    ensures Covered(grid, dim, done, candidates, pos, cost)
  {
    forall u | u in Neighbours(pos, dim) && u !in done
      ensures u in candidates && Computable(grid, u) && candidates[u] <= cost + Risk(grid, u)
    {
      var j :| 0 <= j < |ns| && ns[j] == u;
    }
  }

  /** No position of the `dim` square has a risk that underflows. */
  ghost predicate NoUnderflow(grid: seq<seq<int>>, dim: nat)
    requires IsMap(grid)
  {
    forall p :: InRange(p, dim) ==> Computable(grid, p)
  }

  /** A map of levels 1 to 9, as the puzzle input has, never underflows, however far it is tiled. */
  lemma PositiveLevels(grid: seq<seq<int>>, dim: nat)
    requires IsMap(grid) && forall i, j :: 0 <= i < |grid| && 0 <= j < |grid| ==> grid[i][j] >= 1
    ensures NoUnderflow(grid, dim)
  {
    forall p: Pos | InRange(p, dim)
      ensures Computable(grid, p)
    {
      assert grid[p.0 % |grid|][p.1 % |grid|] >= 1;
    }
  }

  /** One round of `traverse` past the destination check: `pos` is settled and its neighbours relaxed. */
  method Visit(grid: seq<seq<int>>, dim: nat, candidates: map<Pos, nat>, done: set<Pos>,
               ghost doneCost: map<Pos, nat>, ghost routes: map<Pos, seq<Pos>>, pos: Pos)
    returns (ok: bool, next: map<Pos, nat>, ghost nextRoutes: map<Pos, seq<Pos>>)
    requires IsMap(grid) && Searching(grid, dim, candidates, done, doneCost, routes)
    requires pos in candidates && forall q :: q in candidates ==> candidates[pos] <= candidates[q]
    requires pos != (dim - 1, dim - 1)
    ensures ok ==> Searching(grid, dim, next, done + {pos}, doneCost[pos := candidates[pos]], nextRoutes)
    ensures !ok ==> !NoUnderflow(grid, dim)
  {
    ok, next, nextRoutes := Relax(grid, dim, pos, candidates[pos], done + {pos}, candidates - {pos}, routes, routes[pos]);
    if ok {
      Settle(grid, dim, candidates, done, doneCost, routes, pos, next, nextRoutes);
    }
  }

  /**
   * `traverse`: the lowest total risk of a route from `(0, 0)` to
   * `(dim - 1, dim - 1)` on the map tiled `multiplier` times in each
   * direction. `None` where the source panics: a zero multiplier, or a
   * risk that underflows. The candidates never run out, so the final
   * `panic!` is unreachable.
   */
  method Traverse(grid: seq<seq<int>>, multiplier: nat) returns (r: Option<nat>)
    requires IsMap(grid)
    ensures r.Some? ==> (multiplier > 0
      && var dim := multiplier * |grid|; Shortest(grid, dim, (dim - 1, dim - 1), r.value))
    ensures r.None? ==> multiplier == 0 || !NoUnderflow(grid, multiplier * |grid|)
  {
    if multiplier == 0 {
      return None;
    }
    var dim := multiplier * |grid|;
    MulMono(1, multiplier, |grid|);
    var destination := (dim - 1, dim - 1);
    var candidates := map[(0, 0) := 0];
    var done: set<Pos> := {};
    ghost var doneCost: map<Pos, nat> := map[];
    ghost var routes := map[(0, 0) := [(0, 0)]];
    StartSearching(grid, dim);
    while candidates != map[]
      invariant Searching(grid, dim, candidates, done, doneCost, routes)
      decreases Square(dim) - done
    {
      var pos, cost := Cheapest(candidates);
      if pos == destination {
        CheapestIsShortest(grid, dim, candidates, done, doneCost, routes, pos);
        return Some(cost);
      }
      var ok, next;
      ghost var nextRoutes;
      ok, next, nextRoutes := Visit(grid, dim, candidates, done, doneCost, routes, pos);
      if !ok {
        return None;
      }
      candidates, done, doneCost, routes := next, done + {pos}, doneCost[pos := cost], nextRoutes;
    }
    NeverExhausted(grid, dim, candidates, done, doneCost, routes);
    assert false;
  }

  /** The search starts from `(0, 0)` at cost 0, nothing settled. */
  lemma StartSearching(grid: seq<seq<int>>, dim: nat)
    requires IsMap(grid) && dim >= |grid| > 0
    ensures Searching(grid, dim, map[(0, 0) := 0], {}, map[], map[(0, 0) := [(0, 0)]])
  {
    assert RouteTo(grid, dim, [(0, 0)], (0, 0), 0);
  }

  /** The candidates never run out before the destination is settled. */
  lemma NeverExhausted(grid: seq<seq<int>>, dim: nat, candidates: map<Pos, nat>, done: set<Pos>,
                       doneCost: map<Pos, nat>, routes: map<Pos, seq<Pos>>)
    requires IsMap(grid) && Searching(grid, dim, candidates, done, doneCost, routes)
    ensures candidates != map[]
  {
    if candidates == map[] {
      forall d, u | d in done && u in Neighbours(d, dim)
        ensures u in done
      {
        assert Covered(grid, dim, done, candidates, d, doneCost[d]);
      }
      FillsSquare(dim, done, dim - 1, dim - 1);
    }
  }

  // ---------------------------------------------------------------------
  // part1 and part2

  /**
   * `part1`: the lowest total risk across the map itself; `None` only where
   * the source panics (a malformed or non-square map, an underflowing risk).
   */
  method Part1(lines: seq<string>) returns (r: Option<nat>)
    ensures (ParseInput(lines).Some? && IsMap(ParseInput(lines).value)
      && NoUnderflow(ParseInput(lines).value, |ParseInput(lines).value|)) ==> r.Some?
    ensures r.Some? ==> (ParseInput(lines).Some? && IsMap(ParseInput(lines).value)
      && var grid := ParseInput(lines).value; Shortest(grid, |grid|, (|grid| - 1, |grid| - 1), r.value))
  {
    var grid := ParseInput(lines);
    if grid.None? || !IsMap(grid.value) {
      return None;
    }
    r := Traverse(grid.value, 1);
  }

  /**
   * `part2`: the lowest total risk across the map tiled five times in each
   * direction; `None` only where the source panics.
   */
  method Part2(lines: seq<string>) returns (r: Option<nat>)
    ensures (ParseInput(lines).Some? && IsMap(ParseInput(lines).value)
      && NoUnderflow(ParseInput(lines).value, 5 * |ParseInput(lines).value|)) ==> r.Some?
    ensures r.Some? ==> (ParseInput(lines).Some? && IsMap(ParseInput(lines).value)
      && var grid := ParseInput(lines).value; Shortest(grid, 5 * |grid|, (5 * |grid| - 1, 5 * |grid| - 1), r.value))
  {
    var grid := ParseInput(lines);
    if grid.None? || !IsMap(grid.value) {
      return None;
    }
    var g := grid.value;
    ghost var dim := 5 * |g|;
    r := Traverse(g, 5);
    assert r.Some? ==> Shortest(g, dim, (dim - 1, dim - 1), r.value);
    assert r.None? ==> !NoUnderflow(g, dim);
  }
}
