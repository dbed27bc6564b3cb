/**
 * Day 12: Passage Pathing. The input lists the passages "a-b" between
 * caves; the answers count the routes from "start" to "end" that enter no
 * small (lower-case) cave twice, and, in part 2, those that may enter one
 * small cave other than "start" a second time.
 */
module Day12 {
  import opened Common

  type Cave = string

  /** `Graph.edges`: each cave's list of neighbours, in input order. */
  type Graph = map<Cave, seq<Cave>>

  // ---------------------------------------------------------------------
  // parse_input

  /** The pairs of the lines that contain '-'; the other lines give none. */
  function Pairs(lines: seq<string>): seq<(Cave, Cave)> {
    if lines == [] then []
    else
      var init := Pairs(lines[..|lines| - 1]);
      match SplitOnce(lines[|lines| - 1], "-")
      case None => init
      case Some(p) => init + [p]
  }

  /** The caves named by some pair. */
  function Ends(pairs: seq<(Cave, Cave)>): set<Cave> {
    if pairs == [] then {}
    else Ends(pairs[..|pairs| - 1]) + {pairs[|pairs| - 1].0, pairs[|pairs| - 1].1}
  }

  /** How many times the passage between `a` and `b` is listed, counting each direction. */
  function Occurrences(pairs: seq<(Cave, Cave)>, a: Cave, b: Cave): nat {
    if pairs == [] then 0
    else
      var p := pairs[|pairs| - 1];
      Occurrences(pairs[..|pairs| - 1], a, b) + (if p == (a, b) then 1 else 0) + (if p == (b, a) then 1 else 0)
  }

  /** `map.entry(from).or_default().push(to)`. */
  function Push(g: Graph, from: Cave, to: Cave): Graph {
    g[from := (if from in g then g[from] else []) + [to]]
  }

  /**
   * The fold of `parse_input`: every pair "a-b" appends `b` to the list of
   * `a` and then `a` to the list of `b`. The caves with a list are exactly
   * those named, and `b` appears in the list of `a` once per listing of
   * the passage in either direction.
   */
  function Build(pairs: seq<(Cave, Cave)>): (g: Graph)
    ensures g.Keys == Ends(pairs)
    ensures forall a, b :: a in g ==> multiset(g[a])[b] == Occurrences(pairs, a, b)
  {
    if pairs == [] then map[]
    else
      var init := Build(pairs[..|pairs| - 1]);
      var (a, b) := pairs[|pairs| - 1];
      var g := Push(Push(init, a, b), b, a);
      assert forall x, y :: x in g ==> multiset(g[x])[y] == Occurrences(pairs, x, y) by {
        forall x, y | x in g ensures multiset(g[x])[y] == Occurrences(pairs, x, y) {
          if x !in init {
            assert Occurrences(pairs[..|pairs| - 1], x, y) == 0 by {
              OccurrencesInEnds(pairs[..|pairs| - 1], x, y);
            }
          }
        }
      }
      g
  }

  lemma {:induction false} OccurrencesInEnds(pairs: seq<(Cave, Cave)>, a: Cave, b: Cave)
    ensures Occurrences(pairs, a, b) > 0 ==> a in Ends(pairs) && b in Ends(pairs)
  {
    if pairs != [] {
      OccurrencesInEnds(pairs[..|pairs| - 1], a, b);
    }
  }

  /** Every cave in a list of neighbours has a list of its own. */
  ghost predicate Closed(g: Graph) {
    forall a, b :: a in g && b in g[a] ==> b in g
  }

  /** `parse_input`. */
  function ParseInput(lines: seq<string>): (g: Graph) {
    Build(Pairs(lines))
  }

  /**
   * The adjacency built by `parse_input` is symmetric and closed: `b` is
   * listed for `a` exactly as often as `a` for `b`, and every listed cave
   * has a list.
   */
  lemma ParseSymmetric(lines: seq<string>)
    ensures var g := ParseInput(lines);
      Closed(g) && forall a, b :: a in g && b in g ==> multiset(g[a])[b] == multiset(g[b])[a]
  {
    var pairs := Pairs(lines);
    var g := Build(pairs);
    forall a, b | a in g && b in g[a] ensures b in g {
      assert multiset(g[a])[b] > 0;
      OccurrencesInEnds(pairs, a, b);
    }
    forall a, b | a in g && b in g ensures multiset(g[a])[b] == multiset(g[b])[a] {
      OccurrencesSymmetric(pairs, a, b);
    }
  }

  lemma {:induction false} OccurrencesSymmetric(pairs: seq<(Cave, Cave)>, a: Cave, b: Cave)
    ensures Occurrences(pairs, a, b) == Occurrences(pairs, b, a)
  {
    if pairs != [] {
      OccurrencesSymmetric(pairs[..|pairs| - 1], a, b);
    }
  }

  // ---------------------------------------------------------------------
  // The search, as a recursive definition

  /** `head.chars().next().unwrap().is_uppercase()`, for ASCII letters. */
  predicate IsBig(c: Cave) {
    |c| > 0 && 'A' <= c[0] <= 'Z'
  }

  /** No big cave is next to a big cave; otherwise the search never ends. */
  ghost predicate NoBigPair(g: Graph) {
    forall a, b :: a in g && b in g[a] && IsBig(a) ==> !IsBig(b)
  }

  /** The graph the search runs on: closed, and with no two big caves adjacent. */
  ghost predicate Searchable(g: Graph) {
    Closed(g) && NoBigPair(g)
  }

  /** `SmallCaveDuplicateStrategy`. */
  datatype Strategy = NoDuplicates | AtMostOneDuplicateInTotal

  /** `branches` is a tail of the neighbour list of the last cave of `path`. */
  ghost predicate Frame(g: Graph, path: seq<Cave>, branches: seq<Cave>) {
    path != [] && path[|path| - 1] in g
    && forall k :: 0 <= k < |branches| ==> branches[k] in g[path[|path| - 1]]
  }

  /** The small caves of the graph that are not on `path`. */
  ghost function Unvisited(g: Graph, path: seq<Cave>): set<Cave> {
    set c | c in g && !IsBig(c) && c !in path
  }

  /** Twice the small caves left, plus one when standing on a small cave. */
  ghost function Measure(g: Graph, path: seq<Cave>): nat
    requires path != []
  {
    2 * |Unvisited(g, path)| + if IsBig(path[|path| - 1]) then 0 else 1
  }

  /** Entering a big cave, or a small cave not on the path, brings the search closer to its end. */
  lemma Descend(g: Graph, path: seq<Cave>, head: Cave)
    requires Searchable(g) && path != [] && path[|path| - 1] in g && head in g[path[|path| - 1]]
    requires IsBig(head) || head !in path
    ensures head in g
    ensures Measure(g, path + [head]) < Measure(g, path)
  {
    var u := Unvisited(g, path);
    if IsBig(head) {
      assert Unvisited(g, path + [head]) == u;
    } else {
      assert head in u;
      assert Unvisited(g, path + [head]) == u - {head};
    }
  }

  /** What exploring some branches yields: the routes found, and the loop rounds it takes. */
  datatype Tally = Tally(routes: seq<seq<Cave>>, rounds: nat)

  function Plus(x: Tally, y: Tally): Tally {
    Tally(x.routes + y.routes, x.rounds + y.rounds)
  }

  /**
   * The search from `path` over `branches`, the caves still to try from its
   * last cave: each branch in turn, then one round for the exhausted list.
   */
  ghost function Search(g: Graph, path: seq<Cave>, branches: seq<Cave>, s: Strategy): Tally
    requires Searchable(g) && Frame(g, path, branches)
    decreases if s.AtMostOneDuplicateInTotal? then 1 else 0, Measure(g, path), |branches|
  {
    if branches == [] then Tally([], 1)
    else Plus(Step(g, path, branches[0], s), Search(g, path, branches[1..], s))
  }

  /**
   * Trying the branch `head` from `path`, one round of the source's loop and
   * what it leads to. "end" completes a route; a big cave, or a small cave
   * not on the path, is entered and searched from; under
   * `AtMostOneDuplicateInTotal` "start" is skipped and a small cave already
   * on the path is entered once more, the rest of that route being searched
   * without duplicates; any other cave is skipped.
   */
  ghost function Step(g: Graph, path: seq<Cave>, head: Cave, s: Strategy): Tally
    requires Searchable(g) && path != [] && path[|path| - 1] in g && head in g[path[|path| - 1]]
    decreases if s.AtMostOneDuplicateInTotal? then 1 else 0, Measure(g, path), 0
  {
    if head == "end" then Tally([path + [head]], 1)
    else if s.AtMostOneDuplicateInTotal? && head == "start" then Tally([], 1)
    else if IsBig(head) || head !in path then
      Descend(g, path, head);
      Plus(Tally([], 1), Search(g, path + [head], g[head], s))
    else if s.AtMostOneDuplicateInTotal? then
      assert head in g;
      Tally(Search(g, path + [head], g[head], NoDuplicates).routes, 1)
    else Tally([], 1)
  }

  /**
   * Allowing one small cave twice never finds fewer routes: from a path
   * through "start", part 2's search yields at least as many as part 1's.
   */
  lemma {:induction false} SearchAtLeast(g: Graph, path: seq<Cave>, branches: seq<Cave>)
    requires Searchable(g) && Frame(g, path, branches) && "start" in path
    ensures |Search(g, path, branches, AtMostOneDuplicateInTotal).routes| >= |Search(g, path, branches, NoDuplicates).routes|
    decreases Measure(g, path), |branches|
  {
    if branches != [] {
      StepAtLeast(g, path, branches[0]);
      SearchAtLeast(g, path, branches[1..]);
    }
  }

  lemma {:induction false} StepAtLeast(g: Graph, path: seq<Cave>, head: Cave)
    requires Searchable(g) && path != [] && path[|path| - 1] in g && head in g[path[|path| - 1]] && "start" in path
    ensures |Step(g, path, head, AtMostOneDuplicateInTotal).routes| >= |Step(g, path, head, NoDuplicates).routes|
    decreases Measure(g, path), 0
  {
    if head != "end" && head != "start" && (IsBig(head) || head !in path) {
      Descend(g, path, head);
      SearchAtLeast(g, path + [head], g[head]);
    }
  }

  /** The cave at `i` of `r` is a small cave already met before `i`. */
  ghost predicate Revisits(r: seq<Cave>, i: nat)
    requires i < |r|
  {
    !IsBig(r[i]) && exists j :: 0 <= j < i && r[j] == r[i]
  }

  /**
   * `r` continues `path` along passages to "end", which it reaches only at
   * its last cave, entering the caves as the strategy allows: under
   * `NoDuplicates` no small cave a second time; under
   * `AtMostOneDuplicateInTotal` never "start", and a small cave a second
   * time at most once.
   */
  ghost predicate Continues(g: Graph, path: seq<Cave>, r: seq<Cave>, s: Strategy) {
    0 < |path| < |r| && r[..|path|] == path && r[|r| - 1] == "end"
    && (forall i :: |path| - 1 <= i < |r| - 1 ==> r[i] in g && r[i + 1] in g[r[i]])
    && (forall i :: |path| <= i < |r| - 1 ==> r[i] != "end")
    && match s
       case NoDuplicates => forall i :: |path| <= i < |r| - 1 ==> !Revisits(r, i)
       case AtMostOneDuplicateInTotal =>
         (forall i :: |path| <= i < |r| ==> r[i] != "start")
         && forall i, j :: |path| <= i < |r| - 1 && |path| <= j < |r| - 1 && Revisits(r, i) && Revisits(r, j) ==> i == j
  }

  /**
   * Every route the search counts is a real one: it continues the path
   * along passages to "end" and keeps the strategy's rule on small caves.
   */
  lemma {:induction false} SearchRoutes(g: Graph, path: seq<Cave>, branches: seq<Cave>, s: Strategy)
    requires Searchable(g) && Frame(g, path, branches) && "start" in path
    ensures forall r :: r in Search(g, path, branches, s).routes ==> Continues(g, path, r, s)
    decreases if s.AtMostOneDuplicateInTotal? then 1 else 0, Measure(g, path), |branches|
  {
    if branches != [] {
      StepRoutes(g, path, branches[0], s);
      SearchRoutes(g, path, branches[1..], s);
    }
  }

  lemma {:induction false} StepRoutes(g: Graph, path: seq<Cave>, head: Cave, s: Strategy)
    requires Searchable(g) && path != [] && path[|path| - 1] in g && head in g[path[|path| - 1]] && "start" in path
    ensures forall r :: r in Step(g, path, head, s).routes ==> Continues(g, path, r, s)
    decreases if s.AtMostOneDuplicateInTotal? then 1 else 0, Measure(g, path), 0
  {
    StepCases(g, path, head, s);
    if head == "end" {
      var r := path + [head];
      assert r[..|path|] == path;
    } else if s.AtMostOneDuplicateInTotal? && head == "start" {
    } else if IsBig(head) || head !in path {
      Descend(g, path, head);
      SearchRoutes(g, path + [head], g[head], s);
      forall r | r in Search(g, path + [head], g[head], s).routes ensures Continues(g, path, r, s) {
        Extend(g, path, head, r, s);
      }
    } else if s.AtMostOneDuplicateInTotal? {
      SearchRoutes(g, path + [head], g[head], NoDuplicates);
      forall r | r in Search(g, path + [head], g[head], NoDuplicates).routes
        ensures Continues(g, path, r, AtMostOneDuplicateInTotal)
      {
        ExtendRevisit(g, path, head, r);
      }
    }
  }

  /** A route on from `path + [head]` is a route on from `path`, when entering `head` was allowed. */
  lemma Extend(g: Graph, path: seq<Cave>, head: Cave, r: seq<Cave>, s: Strategy)
    requires path != [] && path[|path| - 1] in g && head in g[path[|path| - 1]] && "start" in path
    requires head != "end" && (IsBig(head) || head !in path)
    requires s.AtMostOneDuplicateInTotal? ==> head != "start"
    requires Continues(g, path + [head], r, s)
    ensures Continues(g, path, r, s)
  {
    var n := |path|;
    assert r[..n] == (path + [head])[..n] == path;
    assert r[n] == head;
  }

  /** A route from `path + [head]` without duplicates is a route from `path` with one, at `head`. */
  lemma ExtendRevisit(g: Graph, path: seq<Cave>, head: Cave, r: seq<Cave>)
    requires path != [] && path[|path| - 1] in g && head in g[path[|path| - 1]] && "start" in path
    requires head != "end" && head != "start"
    requires Continues(g, path + [head], r, NoDuplicates)
    ensures Continues(g, path, r, AtMostOneDuplicateInTotal)
  {
    var n := |path|;
    assert r[..n] == (path + [head])[..n] == path;
    assert r[n] == head;
    var k :| 0 <= k < n && path[k] == "start";
    assert r[k] == "start";
    forall i | n < i < |r| - 1 ensures r[i] != "start" {
      assert !Revisits(r, i);
      assert 0 <= k < i && r[k] == "start";
    }
  }

  /** A continuation whose next cave is `head` continues `path + [head]`. */
  lemma Narrow(g: Graph, path: seq<Cave>, head: Cave, r: seq<Cave>, s: Strategy)
    requires Continues(g, path, r, s) && r[|path|] == head && head != "end"
    ensures Continues(g, path + [head], r, s)
  {
    var n := |path|;
    assert n < |r| - 1;
    assert r[..n + 1] == r[..n] + [r[n]];
  }

  /** After the one second visit, a continuation of part 2 visits no small cave twice. */
  lemma NarrowRevisit(g: Graph, path: seq<Cave>, head: Cave, r: seq<Cave>)
    requires Continues(g, path, r, AtMostOneDuplicateInTotal) && r[|path|] == head && head != "end"
    requires Revisits(r, |path|)
    ensures Continues(g, path + [head], r, NoDuplicates)
  {
    Narrow(g, path, head, r, AtMostOneDuplicateInTotal);
    var n := |path|;
    forall i | n + 1 <= i < |r| - 1 ensures !Revisits(r, i) {
      assert n <= n < |r| - 1;
    }
  }

  /** Entering a small cave already on the path is a second visit. */
  lemma InPathRevisits(r: seq<Cave>, path: seq<Cave>, head: Cave)
    requires 0 < |path| < |r| && r[..|path|] == path && r[|path|] == head && !IsBig(head) && head in path
    ensures Revisits(r, |path|)
  {
    var k :| 0 <= k < |path| && path[k] == head;
    assert r[k] == r[..|path|][k];
  }

  /**
   * Every route is found: a continuation of `path` whose next cave is
   * still among the branches to try is among the routes the search
   * counts.
   */
  lemma {:induction false} SearchComplete(g: Graph, path: seq<Cave>, branches: seq<Cave>, s: Strategy, r: seq<Cave>)
    requires Searchable(g) && Frame(g, path, branches) && "start" in path
    requires Continues(g, path, r, s) && r[|path|] in branches
    ensures r in Search(g, path, branches, s).routes
    decreases if s.AtMostOneDuplicateInTotal? then 1 else 0, Measure(g, path), |branches|
  {
    if branches[0] == r[|path|] {
      StepComplete(g, path, branches[0], s, r);
    } else {
      SearchComplete(g, path, branches[1..], s, r);
    }
  }

  lemma {:induction false} StepComplete(g: Graph, path: seq<Cave>, head: Cave, s: Strategy, r: seq<Cave>)
    requires Searchable(g) && path != [] && path[|path| - 1] in g && head in g[path[|path| - 1]] && "start" in path
    requires Continues(g, path, r, s) && r[|path|] == head
    ensures r in Step(g, path, head, s).routes
    decreases if s.AtMostOneDuplicateInTotal? then 1 else 0, Measure(g, path), 0
  {
    StepCases(g, path, head, s);
    var n := |path|;
    if head == "end" {
      assert |r| == n + 1;
      assert r == r[..n] + [r[n]];
    } else {
      Narrow(g, path, head, r, s);
      assert r[n] in g && r[n + 1] in g[r[n]];
      if IsBig(head) || head !in path {
        Descend(g, path, head);
        SearchComplete(g, path + [head], g[head], s, r);
      } else {
        InPathRevisits(r, path, head);
        if s.AtMostOneDuplicateInTotal? {
          NarrowRevisit(g, path, head, r);
          SearchComplete(g, path + [head], g[head], NoDuplicates, r);
        }
      }
    }
  }

  /** No cave is listed twice among the neighbours of a cave. */
  ghost predicate DistinctLists(g: Graph) {
    forall a :: a in g ==> Distinct(g[a])
  }

  lemma DistinctAppend<T>(a: seq<T>, b: seq<T>)
    requires Distinct(a) && Distinct(b) && forall x :: x in a ==> x !in b
    ensures Distinct(a + b)
  {
    forall i, j | 0 <= i < j < |a + b| ensures (a + b)[i] != (a + b)[j] {
      if j < |a| {
        assert (a + b)[i] == a[i] && (a + b)[j] == a[j];
      } else if i >= |a| {
        assert (a + b)[i] == b[i - |a|] && (a + b)[j] == b[j - |a|];
      } else {
        assert (a + b)[i] == a[i] && (a + b)[j] == b[j - |a|];
        assert a[i] in a && b[j - |a|] in b;
      }
    }
  }

  /**
   * No route is counted twice when no passage is listed twice: the routes
   * of different branches part at the cave after `path`.
   */
  lemma {:induction false} SearchDistinct(g: Graph, path: seq<Cave>, branches: seq<Cave>, s: Strategy)
    requires Searchable(g) && Frame(g, path, branches) && "start" in path && DistinctLists(g) && Distinct(branches)
    ensures Distinct(Search(g, path, branches, s).routes)
    ensures forall r :: r in Search(g, path, branches, s).routes ==> |path| < |r| && r[|path|] in branches
    decreases if s.AtMostOneDuplicateInTotal? then 1 else 0, Measure(g, path), |branches|
  {
    if branches != [] {
      var rest := branches[1..];
      assert Distinct(rest) by {
        forall i, j | 0 <= i < j < |rest| ensures rest[i] != rest[j] {
          assert rest[i] == branches[i + 1] && rest[j] == branches[j + 1];
        }
      }
      assert branches[0] !in rest by {
        forall k | 0 <= k < |rest| ensures rest[k] != branches[0] {
          assert rest[k] == branches[k + 1];
        }
      }
      StepDistinct(g, path, branches[0], s);
      SearchDistinct(g, path, rest, s);
      DistinctAppend(Step(g, path, branches[0], s).routes, Search(g, path, rest, s).routes);
    }
  }

  lemma {:induction false} StepDistinct(g: Graph, path: seq<Cave>, head: Cave, s: Strategy)
    requires Searchable(g) && path != [] && path[|path| - 1] in g && head in g[path[|path| - 1]] && "start" in path
    requires DistinctLists(g)
    ensures Distinct(Step(g, path, head, s).routes)
    ensures forall r :: r in Step(g, path, head, s).routes ==> |path| < |r| && r[|path|] == head
    decreases if s.AtMostOneDuplicateInTotal? then 1 else 0, Measure(g, path), 0
  {
    StepCases(g, path, head, s);
    var n := |path|;
    if head == "end" {
    } else if (s.NoDuplicates? || head != "start") && (IsBig(head) || head !in path) {
      Descend(g, path, head);
      SearchDistinct(g, path + [head], g[head], s);
      SearchRoutes(g, path + [head], g[head], s);
      forall r | r in Step(g, path, head, s).routes ensures |path| < |r| && r[n] == head {
        assert r[..n + 1] == path + [head];
        assert r[n] == r[..n + 1][n];
      }
    } else if s.AtMostOneDuplicateInTotal? && head != "start" && !IsBig(head) && head in path {
      SearchDistinct(g, path + [head], g[head], NoDuplicates);
      SearchRoutes(g, path + [head], g[head], NoDuplicates);
      forall r | r in Step(g, path, head, s).routes ensures |path| < |r| && r[n] == head {
        assert r[..n + 1] == path + [head];
        assert r[n] == r[..n + 1][n];
      }
    }
  }

  /**
   * What `part1` and `part2` count: the routes the search finds from
   * "start" are exactly the routes to "end" that keep the strategy's rule,
   * and, when no passage is listed twice, each is found once.
   */
  lemma RoutesCounted(g: Graph, s: Strategy)
    requires Searchable(g) && "start" in g
    ensures forall r :: r in Search(g, ["start"], g["start"], s).routes <==> Continues(g, ["start"], r, s)
    ensures DistinctLists(g) ==> Distinct(Search(g, ["start"], g["start"], s).routes)
  {
    SearchRoutes(g, ["start"], g["start"], s);
    forall r | Continues(g, ["start"], r, s) ensures r in Search(g, ["start"], g["start"], s).routes {
      assert r[0] == r[..1][0];
      SearchComplete(g, ["start"], g["start"], s, r);
    }
    if DistinctLists(g) {
      SearchDistinct(g, ["start"], g["start"], s);
    }
  }

  // ---------------------------------------------------------------------
  // no_duplicates and at_most_one_duplicate: the explicit stack

  /** The neighbour lists on the stack, each with the path it continues. */
  ghost predicate Frames(g: Graph, at: seq<seq<Cave>>, stack: seq<seq<Cave>>) {
    Searchable(g) && |at| == |stack| && forall i :: 0 <= i < |stack| ==> Frame(g, at[i], stack[i])
  }

  /** What the lists still on the stack will yield. */
  ghost function Pending(g: Graph, at: seq<seq<Cave>>, stack: seq<seq<Cave>>, s: Strategy): Tally
    requires Frames(g, at, stack)
  {
    if stack == [] then Tally([], 0)
    else Plus(Pending(g, at[..|at| - 1], stack[..|stack| - 1], s), Search(g, at[|at| - 1], stack[|stack| - 1], s))
  }

  lemma PendingPop(g: Graph, at: seq<seq<Cave>>, stack: seq<seq<Cave>>, s: Strategy)
    requires Frames(g, at, stack) && stack != []
    ensures Frames(g, at[..|at| - 1], stack[..|stack| - 1])
    ensures Pending(g, at, stack, s)
      == Plus(Pending(g, at[..|at| - 1], stack[..|stack| - 1], s), Search(g, at[|at| - 1], stack[|stack| - 1], s))
  {
  }

  lemma PendingPush(g: Graph, at: seq<seq<Cave>>, stack: seq<seq<Cave>>, path: seq<Cave>, branches: seq<Cave>, s: Strategy)
    requires Frames(g, at, stack) && Frame(g, path, branches)
    ensures Frames(g, at + [path], stack + [branches])
    ensures Pending(g, at + [path], stack + [branches], s) == Plus(Pending(g, at, stack, s), Search(g, path, branches, s))
  {
    assert (at + [path])[..|at|] == at;
    assert (stack + [branches])[..|stack|] == stack;
  }

  /**
   * The current path is `root` and one cave per list on the stack, and the
   * path each list continues is the matching prefix of it.
   */
  ghost predicate Aligned(at: seq<seq<Cave>>, path: seq<Cave>, root: seq<Cave>) {
    |path| == |root| + |at| && path[..|root|] == root
    && forall i :: 0 <= i < |at| ==> at[i] == path[..|root| + 1 + i]
  }

  /** Popping an exhausted list pops the path and takes one round. */
  lemma PopEmpty(g: Graph, at: seq<seq<Cave>>, stack: seq<seq<Cave>>, path: seq<Cave>, root: seq<Cave>, s: Strategy)
    requires Frames(g, at, stack) && Aligned(at, path, root)
    requires stack != [] && stack[|stack| - 1] == []
    ensures path != [] && Frames(g, at[..|at| - 1], stack[..|stack| - 1])
    ensures Aligned(at[..|at| - 1], path[..|path| - 1], root)
    ensures var p := Pending(g, at[..|at| - 1], stack[..|stack| - 1], s);
      p.routes == Pending(g, at, stack, s).routes && p.rounds < Pending(g, at, stack, s).rounds
  {
    PendingPop(g, at, stack, s);
  }

  /**
   * Popping a list with a first cave `head` puts its tail back; what the
   * stack still yields drops by what trying `head` yields.
   */
  lemma PopBranch(g: Graph, at: seq<seq<Cave>>, stack: seq<seq<Cave>>, path: seq<Cave>, root: seq<Cave>, s: Strategy)
    requires Frames(g, at, stack) && Aligned(at, path, root)
    requires stack != [] && stack[|stack| - 1] != []
    ensures var top := stack[|stack| - 1];
      at[|at| - 1] == path && path != [] && path[|path| - 1] in g && top[0] in g[path[|path| - 1]]
    ensures var top := stack[|stack| - 1];
      var at', stack' := at[..|at| - 1] + [path], stack[..|stack| - 1] + [top[1..]];
      Frames(g, at', stack') && Aligned(at', path, root)
      && |Pending(g, at, stack, s).routes| == |Pending(g, at', stack', s).routes| + |Step(g, path, top[0], s).routes|
      && Pending(g, at, stack, s).rounds == Pending(g, at', stack', s).rounds + Step(g, path, top[0], s).rounds
  {
    var top := stack[|stack| - 1];
    PendingPop(g, at, stack, s);
    AlignedLast(at, path, root);
    SearchFirst(g, path, top, s);
    PendingPush(g, at[..|at| - 1], stack[..|stack| - 1], path, top[1..], s);
  }

  /** The last path on the stack is the current path. */
  lemma AlignedLast(at: seq<seq<Cave>>, path: seq<Cave>, root: seq<Cave>)
    requires Aligned(at, path, root) && at != []
    ensures at[|at| - 1] == path && at[..|at| - 1] + [path] == at
  {
    assert at[|at| - 1] == path[..|path|] == path;
  }

  /** A non-empty list of branches yields its first step, then the search over the rest. */
  lemma SearchFirst(g: Graph, path: seq<Cave>, branches: seq<Cave>, s: Strategy)
    requires Searchable(g) && Frame(g, path, branches) && branches != []
    ensures Frame(g, path, branches[1..]) && branches[0] in g[path[|path| - 1]]
    ensures Search(g, path, branches, s) == Plus(Step(g, path, branches[0], s), Search(g, path, branches[1..], s))
  {
  }

  /** Entering `head` pushes it on the path and its neighbours on the stack. */
  lemma Enter(g: Graph, at: seq<seq<Cave>>, stack: seq<seq<Cave>>, path: seq<Cave>, root: seq<Cave>, head: Cave, s: Strategy)
    requires Frames(g, at, stack) && Aligned(at, path, root) && at != []
    requires path != [] && path[|path| - 1] in g && head in g[path[|path| - 1]]
    requires IsBig(head) || head !in path
    ensures head in g
    ensures Frames(g, at + [path + [head]], stack + [g[head]]) && Aligned(at + [path + [head]], path + [head], root)
    ensures Pending(g, at + [path + [head]], stack + [g[head]], s)
      == Plus(Pending(g, at, stack, s), Search(g, path + [head], g[head], s))
  {
    Descend(g, path, head);
    PendingPush(g, at, stack, path + [head], g[head], s);
    forall i | 0 <= i < |at| ensures at[i] == (path + [head])[..|root| + 1 + i] {
      assert (path + [head])[..|root| + 1 + i] == path[..|root| + 1 + i];
    }
    assert (path + [head])[..|root|] == path[..|root|];
  }

  /** What trying `head` yields, case by case. */
  lemma StepCases(g: Graph, path: seq<Cave>, head: Cave, s: Strategy)
    requires Searchable(g) && path != [] && path[|path| - 1] in g && head in g[path[|path| - 1]]
    ensures head == "end" ==> |Step(g, path, head, s).routes| == 1
    ensures head != "end" && s.AtMostOneDuplicateInTotal? && head == "start" ==> Step(g, path, head, s).routes == []
    ensures head != "end" && (s.NoDuplicates? || head != "start") && (IsBig(head) || head !in path) ==>
      head in g && Step(g, path, head, s).routes == Search(g, path + [head], g[head], s).routes
    ensures head != "end" && !IsBig(head) && head in path ==>
      head in g && Step(g, path, head, s).routes
        == if s.AtMostOneDuplicateInTotal? && head != "start" then Search(g, path + [head], g[head], NoDuplicates).routes else []
  {
  }

  /** The state of the search loop: the stack is well formed and `count` plus what it still yields is `total`. */
  ghost predicate Walk(g: Graph, at: seq<seq<Cave>>, stack: seq<seq<Cave>>, path: seq<Cave>, root: seq<Cave>,
                       count: nat, total: nat, s: Strategy) {
    Frames(g, at, stack) && Aligned(at, path, root) && count + |Pending(g, at, stack, s).routes| == total
  }

  /** The rounds the stack still takes, the measure of the search loop. */
  ghost function Rounds(g: Graph, at: seq<seq<Cave>>, stack: seq<seq<Cave>>, s: Strategy): nat
    requires Frames(g, at, stack)
  {
    Pending(g, at, stack, s).rounds
  }

  /** The state just after popping `head` from the top list: trying `head` is still to be counted, within `rounds`. */
  ghost predicate Popped(g: Graph, at: seq<seq<Cave>>, stack: seq<seq<Cave>>, path: seq<Cave>, root: seq<Cave>,
                         head: Cave, count: nat, total: nat, s: Strategy, rounds: nat) {
    Frames(g, at, stack) && Aligned(at, path, root) && at != []
    && path != [] && path[|path| - 1] in g && head in g[path[|path| - 1]]
    && count + |Step(g, path, head, s).routes| + |Pending(g, at, stack, s).routes| == total
    && Pending(g, at, stack, s).rounds + Step(g, path, head, s).rounds == rounds
  }

  lemma WalkPop(g: Graph, at: seq<seq<Cave>>, stack: seq<seq<Cave>>, path: seq<Cave>, root: seq<Cave>,
                count: nat, total: nat, s: Strategy)
    requires Walk(g, at, stack, path, root, count, total, s) && stack != [] && stack[|stack| - 1] == []
    ensures path != [] && Walk(g, at[..|at| - 1], stack[..|stack| - 1], path[..|path| - 1], root, count, total, s)
    ensures Rounds(g, at[..|at| - 1], stack[..|stack| - 1], s) < Rounds(g, at, stack, s)
  {
    PopEmpty(g, at, stack, path, root, s);
  }

  lemma WalkBranch(g: Graph, at: seq<seq<Cave>>, stack: seq<seq<Cave>>, path: seq<Cave>, root: seq<Cave>,
                   count: nat, total: nat, s: Strategy)
    requires Walk(g, at, stack, path, root, count, total, s) && stack != [] && stack[|stack| - 1] != []
    ensures var top := stack[|stack| - 1];
      Popped(g, at[..|at| - 1] + [path], stack[..|stack| - 1] + [top[1..]], path, root, top[0], count, total, s,
             Rounds(g, at, stack, s))
  {
    PopBranch(g, at, stack, path, root, s);
  }

  /** Trying `head` found `found` routes and pushed nothing. */
  lemma PoppedCount(g: Graph, at: seq<seq<Cave>>, stack: seq<seq<Cave>>, path: seq<Cave>, root: seq<Cave>,
                    head: Cave, count: nat, total: nat, s: Strategy, rounds: nat, found: nat)
    requires Popped(g, at, stack, path, root, head, count, total, s, rounds)
    requires found == |Step(g, path, head, s).routes|
    ensures Walk(g, at, stack, path, root, count + found, total, s) && Rounds(g, at, stack, s) < rounds
  {
  }

  /** Trying `head` entered it: the path and the stack grow by one. */
  lemma PoppedEnter(g: Graph, at: seq<seq<Cave>>, stack: seq<seq<Cave>>, path: seq<Cave>, root: seq<Cave>,
                    head: Cave, count: nat, total: nat, s: Strategy, rounds: nat)
    requires Popped(g, at, stack, path, root, head, count, total, s, rounds)
    requires head != "end" && (s.NoDuplicates? || head != "start") && (IsBig(head) || head !in path)
    ensures head in g
    ensures Walk(g, at + [path + [head]], stack + [g[head]], path + [head], root, count, total, s)
    ensures Rounds(g, at + [path + [head]], stack + [g[head]], s) < rounds
  {
    Enter(g, at, stack, path, root, head, s);
  }

  /**
   * `no_duplicates`: pops a list of neighbours; an empty one pops the path,
   * otherwise its tail goes back, "end" counts a route, and a big cave or a
   * small cave not on the path is pushed on the path with its own list.
   * `path` is the caller's vector; it comes back with its last cave popped.
   */
  method NoDuplicatesSearch(g: Graph, path: seq<Cave>) returns (count: nat, path': seq<Cave>)
    requires Searchable(g) && path != [] && path[|path| - 1] in g
    ensures count == |Search(g, path, g[path[|path| - 1]], NoDuplicates).routes|
    ensures path' == path[..|path| - 1]
  {
    var stack := [g[path[|path| - 1]]];
    ghost var at := [path];
    ghost var root := path[..|path| - 1];
    ghost var total := |Search(g, path, stack[0], NoDuplicates).routes|;
    count, path' := 0, path;
    assert Pending(g, at, stack, NoDuplicates) == Plus(Tally([], 0), Search(g, path, stack[0], NoDuplicates));
    while stack != []
      invariant Walk(g, at, stack, path', root, count, total, NoDuplicates)
      decreases Rounds(g, at, stack, NoDuplicates)
    {
      var branches := stack[|stack| - 1];
      if branches == [] {
        WalkPop(g, at, stack, path', root, count, total, NoDuplicates);
        stack, at := stack[..|stack| - 1], at[..|at| - 1];
        path' := path'[..|path'| - 1];
      } else {
        var head := branches[0];
        ghost var rounds := Rounds(g, at, stack, NoDuplicates);
        WalkBranch(g, at, stack, path', root, count, total, NoDuplicates);
        stack, at := stack[..|stack| - 1] + [branches[1..]], at[..|at| - 1] + [path'];
        if head == "end" {
          StepCases(g, path', head, NoDuplicates);
          PoppedCount(g, at, stack, path', root, head, count, total, NoDuplicates, rounds, 1);
          count := count + 1;
        } else if IsBig(head) || head !in path' {
          PoppedEnter(g, at, stack, path', root, head, count, total, NoDuplicates, rounds);
          path' := path' + [head];
          stack, at := stack + [g[head]], at + [path'];
        } else {
          StepCases(g, path', head, NoDuplicates);
          PoppedCount(g, at, stack, path', root, head, count, total, NoDuplicates, rounds, 0);
        }
      }
    }
  }

  /**
   * `at_most_one_duplicate`: the same loop from the neighbours of "start",
   * except that "start" is never entered again, and that entering a small
   * cave already on the path hands the rest of the search to
   * `no_duplicates`, which pops that cave off the path when it is done.
   */
  method AtMostOneDuplicateSearch(g: Graph, path: seq<Cave>) returns (count: nat, path': seq<Cave>)
    requires Searchable(g) && path != [] && path[|path| - 1] == "start" && "start" in g
    ensures count == |Search(g, path, g["start"], AtMostOneDuplicateInTotal).routes|
    ensures path' == path[..|path| - 1]
  {
    var stack := [g["start"]];
    ghost var at := [path];
    ghost var root := path[..|path| - 1];
    ghost var total := |Search(g, path, stack[0], AtMostOneDuplicateInTotal).routes|;
    count, path' := 0, path;
    assert Pending(g, at, stack, AtMostOneDuplicateInTotal) == Plus(Tally([], 0), Search(g, path, stack[0], AtMostOneDuplicateInTotal));
    while stack != []
      invariant Walk(g, at, stack, path', root, count, total, AtMostOneDuplicateInTotal)
      decreases Rounds(g, at, stack, AtMostOneDuplicateInTotal)
    {
      var branches := stack[|stack| - 1];
      if branches == [] {
        WalkPop(g, at, stack, path', root, count, total, AtMostOneDuplicateInTotal);
        stack, at := stack[..|stack| - 1], at[..|at| - 1];
        path' := path'[..|path'| - 1];
      } else {
        var head := branches[0];
        ghost var rounds := Rounds(g, at, stack, AtMostOneDuplicateInTotal);
        WalkBranch(g, at, stack, path', root, count, total, AtMostOneDuplicateInTotal);
        stack, at := stack[..|stack| - 1] + [branches[1..]], at[..|at| - 1] + [path'];
        if head == "end" {
          StepCases(g, path', head, AtMostOneDuplicateInTotal);
          PoppedCount(g, at, stack, path', root, head, count, total, AtMostOneDuplicateInTotal, rounds, 1);
          count := count + 1;
        } else if head == "start" {
          StepCases(g, path', head, AtMostOneDuplicateInTotal);
          PoppedCount(g, at, stack, path', root, head, count, total, AtMostOneDuplicateInTotal, rounds, 0);
        } else {
          var uppercase := IsBig(head);
          var contained := head in path';
          if uppercase || !contained {
            PoppedEnter(g, at, stack, path', root, head, count, total, AtMostOneDuplicateInTotal, rounds);
            path' := path' + [head];
            stack, at := stack + [g[head]], at + [path'];
          } else {
            var found := Revisit(g, path', head);
            PoppedCount(g, at, stack, path', root, head, count, total, AtMostOneDuplicateInTotal, rounds, found);
            count := count + found;
          }
        }
      }
    }
  }

  /**
   * Entering a small cave a second time: `path.push(head)` and
   * `no_duplicates`, which pops `head` again.
   */
  method Revisit(g: Graph, path: seq<Cave>, head: Cave) returns (found: nat)
    requires Searchable(g) && path != [] && path[|path| - 1] in g && head in g[path[|path| - 1]]
    requires head != "end" && head != "start" && !IsBig(head) && head in path
    ensures found == |Step(g, path, head, AtMostOneDuplicateInTotal).routes|
  {
    StepCases(g, path, head, AtMostOneDuplicateInTotal);
    var extended := path + [head];
    found, extended := NoDuplicatesSearch(g, extended);
  }

  /** `part1`: `None` where the source panics because "start" has no passage. */
  method Part1(lines: seq<string>) returns (r: Option<nat>)
    requires Searchable(ParseInput(lines))
    ensures var g := ParseInput(lines);
      r.Some? <==> "start" in g
    ensures var g := ParseInput(lines);
      r.Some? ==> r.value == |Search(g, ["start"], g["start"], NoDuplicates).routes|
  {
    var g := ParseInput(lines);
    if "start" !in g {
      return None;
    }
    var count, _ := NoDuplicatesSearch(g, ["start"]);
    r := Some(count);
  }

  /** `part2`: `None` where the source panics because "start" has no passage. */
  method Part2(lines: seq<string>) returns (r: Option<nat>)
    requires Searchable(ParseInput(lines))
    ensures var g := ParseInput(lines);
      r.Some? <==> "start" in g
    ensures var g := ParseInput(lines);
      r.Some? ==> r.value == |Search(g, ["start"], g["start"], AtMostOneDuplicateInTotal).routes|
  {
    var g := ParseInput(lines);
    if "start" !in g {
      return None;
    }
    var count, _ := AtMostOneDuplicateSearch(g, ["start"]);
    r := Some(count);
  }
}
