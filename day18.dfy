/**
 * Day 18: Snailfish. A snailfish number is a pair whose two elements are
 * literals or further pairs. Adding two numbers pairs them and reduces the
 * result: the leftmost pair nested inside four pairs explodes, otherwise
 * the leftmost literal of ten or more splits, until neither applies.
 *
 * The trees are values here: the source rewrites them in place through
 * `&mut` references, and the explosion's additions into the neighbouring
 * literals are carried up the recursion until an ancestor owns the
 * neighbour. Each rewrite is specified on the in-order sequence of
 * literals (`Leaves`) and the nesting level of each (`Levels`).
 */
module Day18 {
  import opened Common

  // ---------------------------------------------------------------------
  // Sequences of literals

  /** Adds `a` to the first entry; the empty sequence has none. */
  function AddFirst(s: seq<nat>, a: nat): (r: seq<nat>)
    ensures |r| == |s|
    ensures s != [] ==> r[0] == s[0] + a && r[1..] == s[1..]
  {
    if s == [] then [] else [s[0] + a] + s[1..]
  }

  /** Adds `a` to the last entry; the empty sequence has none. */
  function AddLast(s: seq<nat>, a: nat): (r: seq<nat>)
    ensures |r| == |s|
    ensures s != [] ==> r[|s| - 1] == s[|s| - 1] + a && r[..|s| - 1] == s[..|s| - 1]
  {
    if s == [] then [] else s[..|s| - 1] + [s[|s| - 1] + a]
  }

  /** The index of the first entry that is at least `bound`, or `|s|` when there is none. */
  function FirstAtLeast(s: seq<nat>, bound: nat): (r: nat)
    ensures r <= |s|
    ensures forall k :: 0 <= k < r ==> s[k] < bound
    ensures r < |s| ==> s[r] >= bound
  {
    if s == [] then 0 else if s[0] >= bound then 0 else 1 + FirstAtLeast(s[1..], bound)
  }

  lemma {:induction false} FirstAtLeastAppend(s: seq<nat>, t: seq<nat>, bound: nat)
    ensures FirstAtLeast(s + t, bound) == if FirstAtLeast(s, bound) < |s| then FirstAtLeast(s, bound) else |s| + FirstAtLeast(t, bound)
  {
    if s != [] {
      assert (s + t)[0] == s[0];
      assert (s + t)[1..] == s[1..] + t;
      FirstAtLeastAppend(s[1..], t, bound);
    } else {
      assert s + t == t;
    }
  }

  // ---------------------------------------------------------------------
  // SnailNumber and SnailElement

  /** `SnailNumber`: a pair of elements. */
  datatype SnailNumber = SnailNumber(left: SnailElement, right: SnailElement)
  {
    /** The literals, left to right. */
    function Leaves(): (r: seq<nat>)
      ensures |r| >= 2
      decreases this
    {
      left.Leaves() + right.Leaves()
    }

    /** The nesting level of each literal when this pair is at `level`. */
    function Levels(level: nat): (r: seq<nat>)
      ensures |r| == |Leaves()|
      ensures forall k :: 0 <= k < |r| ==> r[k] >= level
      decreases this
    {
      left.Levels(level) + right.Levels(level)
    }

    /** `max`: the largest literal. */
    function Max(): (r: nat)
      ensures r in Leaves()
      ensures forall k :: 0 <= k < |Leaves()| ==> Leaves()[k] <= r
      decreases this
    {
      Common.Max(left.Max(), right.Max())
    }

    /** `depth`: one more than the deeper element. */
    function Depth(): (r: nat)
      ensures r >= 1
      decreases this
    {
      Common.Max(left.Depth(), right.Depth()) + 1
    }

    /** `magnitude`: three times the left plus twice the right. */
    function Magnitude(): nat
      decreases this
    {
      3 * left.Magnitude() + 2 * right.Magnitude()
    }
  }

  /** `SnailElement`: a literal or a nested pair. */
  datatype SnailElement = Literal(value: nat) | Recursion(inner: SnailNumber)
  {
    function Leaves(): (r: seq<nat>)
      ensures |r| >= 1
      decreases this
    {
      match this
      case Literal(v) => [v]
      case Recursion(inner) => inner.Leaves()
    }

    /** A literal is at the level of the pair holding it. */
    function Levels(level: nat): (r: seq<nat>)
      ensures |r| == |Leaves()|
      ensures forall k :: 0 <= k < |r| ==> r[k] >= level
      decreases this
    {
      match this
      case Literal(_) => [level]
      case Recursion(inner) => inner.Levels(level + 1)
    }

    function Max(): (r: nat)
      ensures r in Leaves()
      ensures forall k :: 0 <= k < |Leaves()| ==> Leaves()[k] <= r
      decreases this
    {
      match this
      case Literal(v) => v
      case Recursion(inner) => inner.Max()
    }

    /** A literal has depth 0. */
    function Depth(): nat
      decreases this
    {
      match this
      case Literal(_) => 0
      case Recursion(inner) => inner.Depth()
    }

    /** A literal's magnitude is its value. */
    function Magnitude(): nat
      decreases this
    {
      match this
      case Literal(v) => v
      case Recursion(inner) => inner.Magnitude()
    }

    /** The walk down the left edge that adds an exploded right value to the nearest literal on its right. */
    function AddLeftmost(a: nat): (r: SnailElement)
      ensures r.Leaves() == AddFirst(Leaves(), a)
      decreases this
    {
      match this
      case Literal(v) => Literal(v + a)
      case Recursion(inner) => Recursion(SnailNumber(inner.left.AddLeftmost(a), inner.right))
    }

    /** The walk down the right edge that adds an exploded left value to the nearest literal on its left. */
    function AddRightmost(a: nat): (r: SnailElement)
      ensures r.Leaves() == AddLast(Leaves(), a)
      decreases this
    {
      match this
      case Literal(v) => Literal(v + a)
      case Recursion(inner) => Recursion(SnailNumber(inner.left, inner.right.AddRightmost(a)))
    }
  }

  /** Adding into a literal moves no literal to another level. */
  lemma {:induction false} AddLeftmostLevels(e: SnailElement, a: nat, level: nat)
    ensures e.AddLeftmost(a).Levels(level) == e.Levels(level)
    decreases e
  {
    if e.Recursion? {
      AddLeftmostLevels(e.inner.left, a, level + 1);
    }
  }

  lemma {:induction false} AddRightmostLevels(e: SnailElement, a: nat, level: nat)
    ensures e.AddRightmost(a).Levels(level) == e.Levels(level)
    decreases e
  {
    if e.Recursion? {
      AddRightmostLevels(e.inner.right, a, level + 1);
    }
  }

  /** The deepest literal of an element at `level` is at `level + Depth()`. */
  lemma {:induction false} DepthLevels(e: SnailElement, level: nat)
    ensures forall k :: 0 <= k < |e.Levels(level)| ==> e.Levels(level)[k] <= e.Depth() + level
    ensures e.Depth() + level in e.Levels(level)
    decreases e
  {
    match e
    case Literal(_) =>
    case Recursion(inner) =>
      DepthLevels(inner.left, level + 1);
      DepthLevels(inner.right, level + 1);
  }

  /** For a number at level 1, `depth` is the deepest literal's level. */
  lemma NumberDepthLevels(n: SnailNumber)
    ensures forall k :: 0 <= k < |n.Levels(1)| ==> n.Levels(1)[k] <= n.Depth()
    ensures n.Depth() in n.Levels(1)
  {
    DepthLevels(Recursion(n), 0);
  }

  // ---------------------------------------------------------------------
  // explode

  /** `inner_explode`'s `ControlFlow`, with the values still to be added left and right of the explosion. */
  datatype Explosion = Continue | Break(number: SnailNumber, carryLeft: nat, carryRight: nat) | Panic

  /** The literals after exploding the pair whose literals are at `i` and `i + 1`. */
  function ExplodeLeaves(s: seq<nat>, i: nat): seq<nat>
    requires i + 1 < |s|
  {
    AddLast(s[..i], s[i]) + [0] + AddFirst(s[i + 2..], s[i + 1])
  }

  /** No literal is at level 5 or deeper. */
  predicate NoDeep(levels: seq<nat>) {
    FirstAtLeast(levels, 5) == |levels|
  }

  /** No literal is deeper than level 5. */
  predicate Shallow(levels: seq<nat>) {
    forall k :: 0 <= k < |levels| ==> levels[k] <= 5
  }

  /**
   * An explosion, on the literals and their levels: the first literal at
   * level 5 or deeper and the next one are a pair at level 5, which
   * becomes a 0 at level 4 with its values added to its neighbours.
   */
  predicate ExplodedTo(leaves: seq<nat>, levels: seq<nat>, newLeaves: seq<nat>, newLevels: seq<nat>)
    requires |leaves| == |levels|
  {
    var i := FirstAtLeast(levels, 5);
    i + 1 < |leaves| && levels[i] == 5 && levels[i + 1] == 5 &&
    newLeaves == ExplodeLeaves(leaves, i) &&
    newLevels == levels[..i] + [4] + levels[i + 2..]
  }

  /** The same inside a part of the number: a value without a neighbour in the part is carried out of that end. */
  predicate Explodes(leaves: seq<nat>, levels: seq<nat>, newLeaves: seq<nat>, newLevels: seq<nat>, carryLeft: nat, carryRight: nat)
    requires |leaves| == |levels|
  {
    var i := FirstAtLeast(levels, 5);
    ExplodedTo(leaves, levels, newLeaves, newLevels) &&
    carryLeft == (if i == 0 then leaves[0] else 0) &&
    carryRight == (if i + 2 == |leaves| then leaves[i + 1] else 0)
  }

  lemma NoDeepAppend(s: seq<nat>, t: seq<nat>)
    ensures NoDeep(s + t) <==> NoDeep(s) && NoDeep(t)
  {
    FirstAtLeastAppend(s, t, 5);
  }

  lemma ShallowAppend(s: seq<nat>, t: seq<nat>)
    ensures Shallow(s + t) ==> Shallow(s) && Shallow(t)
  {
    if Shallow(s + t) {
      forall k | 0 <= k < |s| ensures s[k] <= 5 {
        assert s[k] == (s + t)[k];
      }
      forall k | 0 <= k < |t| ensures t[k] <= 5 {
        assert t[k] == (s + t)[|s| + k];
      }
    }
  }

  /** An explosion inside the left part of `s + t` leaves `t` but for the carry into its first literal. */
  lemma ExplodeLeavesLeft(s: seq<nat>, t: seq<nat>, i: nat)
    requires i + 1 < |s| && t != []
    ensures ExplodeLeaves(s, i) + AddFirst(t, if i + 2 == |s| then s[i + 1] else 0) == ExplodeLeaves(s + t, i)
  {
    assert (s + t)[..i] == s[..i];
    if i + 2 == |s| {
      assert (s + t)[i + 2..] == t;
    } else {
      assert (s + t)[i + 2..] == s[i + 2..] + t;
      assert AddFirst(t, 0) == t;
    }
  }

  /** An explosion at index `at` inside the right part of `s + t` leaves `s` but for the carry into its last literal. */
  lemma ExplodeLeavesRight(s: seq<nat>, t: seq<nat>, j: nat, carry: nat, nt: seq<nat>, at: nat)
    requires j + 1 < |t| && s != [] && at == |s| + j
    requires carry == if j == 0 then t[0] else 0
    requires nt == ExplodeLeaves(t, j)
    ensures AddLast(s, carry) + nt == ExplodeLeaves(s + t, at)
  {
    var tail := AddFirst(t[j + 2..], t[j + 1]);
    var head := AddLast(t[..j], t[j]);
    ExplodeLeavesAppend(s, t, j, at);
    assert nt == head + [0] + tail;
    if j == 0 {
      ExplodeLeavesFirst(s, t, carry, tail, at);
    } else {
      ExplodeLeavesLater(s, t, j, head, tail, at);
    }
  }

  /** Unfolds `ExplodeLeaves` at an index inside the right part `t` of `s + t`. */
  lemma ExplodeLeavesAppend(s: seq<nat>, t: seq<nat>, j: nat, at: nat)
    requires j + 1 < |t| && at == |s| + j
    ensures ExplodeLeaves(s + t, at) == AddLast((s + t)[..at], t[j]) + [0] + AddFirst(t[j + 2..], t[j + 1])
  {
    assert (s + t)[at + 2..] == t[j + 2..];
    AppendIndex(s, t, j, at);
    AppendIndex(s, t, j + 1, at + 1);
  }

  lemma ExplodeLeavesFirst(s: seq<nat>, t: seq<nat>, carry: nat, tail: seq<nat>, at: nat)
    requires t != [] && carry == t[0] && at == |s|
    ensures AddLast(s, carry) + ([] + [0] + tail) == AddLast((s + t)[..at], t[0]) + [0] + tail
  {
    assert (s + t)[..at] == s;
    assert [] + [0] + tail == [0] + tail;
  }

  lemma ExplodeLeavesLater(s: seq<nat>, t: seq<nat>, j: nat, head: seq<nat>, tail: seq<nat>, at: nat)
    requires 0 < j < |t| && head == AddLast(t[..j], t[j]) && at == |s| + j
    ensures AddLast(s, 0) + (head + [0] + tail) == AddLast((s + t)[..at], t[j]) + [0] + tail
  {
    assert (s + t)[..at] == s + t[..j];
    AddLastAppend(s, t[..j], t[j]);
    assert AddLast(s, 0) == s;
    ConcatAssoc(s, head, [0], tail);
  }

  lemma AppendIndex(s: seq<nat>, t: seq<nat>, k: nat, at: nat)
    requires k < |t| && at == |s| + k
    ensures (s + t)[at] == t[k]
  {
  }

  /** Adding into the last entry of `s + u` leaves `s` alone when `u` is not empty. */
  lemma AddLastAppend(s: seq<nat>, u: seq<nat>, a: nat)
    requires u != []
    ensures AddLast(s + u, a) == s + AddLast(u, a)
  {
    assert (s + u)[..|s + u| - 1] == s + u[..|u| - 1];
  }

  lemma ExplodeLevelsLeft(s: seq<nat>, t: seq<nat>, i: nat)
    requires i + 1 < |s|
    ensures s[..i] + [4] + s[i + 2..] + t == (s + t)[..i] + [4] + (s + t)[i + 2..]
  {
    assert (s + t)[..i] == s[..i];
    assert (s + t)[i + 2..] == s[i + 2..] + t;
  }

  lemma ExplodeLevelsRight(s: seq<nat>, t: seq<nat>, j: nat, nt: seq<nat>, at: nat)
    requires j + 1 < |t| && at == |s| + j
    requires nt == t[..j] + [4] + t[j + 2..]
    ensures s + nt == (s + t)[..at] + [4] + (s + t)[at + 2..]
  {
    assert (s + t)[..|s| + j] == s + t[..j];
    assert (s + t)[|s| + j + 2..] == t[j + 2..];
    ConcatAssoc(s, t[..j], [4], t[j + 2..]);
  }

  /** An explosion in the left part of `s + t`: its right carry lands on the first literal of `t`. */
  lemma ExplodesLeft(s: seq<nat>, sl: seq<nat>, t: seq<nat>, tl: seq<nat>, ns: seq<nat>, nsl: seq<nat>, carryLeft: nat, carryRight: nat)
    requires |s| == |sl| && |t| == |tl| && t != []
    requires Explodes(s, sl, ns, nsl, carryLeft, carryRight)
    ensures Explodes(s + t, sl + tl, ns + AddFirst(t, carryRight), nsl + tl, carryLeft, 0)
  {
    var i := FirstAtLeast(sl, 5);
    FirstAtLeastAppend(sl, tl, 5);
    ExplodeLeavesLeft(s, t, i);
    ExplodeLevelsLeft(sl, tl, i);
    assert (sl + tl)[i] == sl[i] && (sl + tl)[i + 1] == sl[i + 1];
    assert (s + t)[0] == s[0] && (s + t)[i + 1] == s[i + 1];
  }

  /** An explosion in the right part of `s + t`, with none in `s`: its left carry lands on the last literal of `s`. */
  lemma ExplodesRight(s: seq<nat>, sl: seq<nat>, t: seq<nat>, tl: seq<nat>, nt: seq<nat>, ntl: seq<nat>, carryLeft: nat, carryRight: nat)
    requires |s| == |sl| && |t| == |tl| && s != []
    requires NoDeep(sl)
    requires Explodes(t, tl, nt, ntl, carryLeft, carryRight)
    ensures Explodes(s + t, sl + tl, AddLast(s, carryLeft) + nt, sl + ntl, 0, carryRight)
  {
    var j := FirstAtLeast(tl, 5);
    var at := |s| + j;
    ExplodesParts(t, tl, nt, ntl, carryLeft, carryRight, j);
    FirstAtLeastAppend(sl, tl, 5);
    assert FirstAtLeast(sl + tl, 5) == at;
    ExplodeLeavesRight(s, t, j, carryLeft, nt, at);
    ExplodeLevelsRight(sl, tl, j, ntl, at);
    AppendIndex(sl, tl, j, at);
    AppendIndex(sl, tl, j + 1, at + 1);
    AppendIndex(s, t, j + 1, at + 1);
    ExplodesIntro(s + t, sl + tl, AddLast(s, carryLeft) + nt, sl + ntl, 0, carryRight, at);
  }

  /** The parts of `Explodes` at the explosion's index `i`. */
  lemma ExplodesParts(leaves: seq<nat>, levels: seq<nat>, newLeaves: seq<nat>, newLevels: seq<nat>, carryLeft: nat, carryRight: nat, i: nat)
    requires |leaves| == |levels| && FirstAtLeast(levels, 5) == i
    requires Explodes(leaves, levels, newLeaves, newLevels, carryLeft, carryRight)
    ensures i + 1 < |leaves| && levels[i] == 5 && levels[i + 1] == 5
    ensures newLeaves == ExplodeLeaves(leaves, i)
    ensures newLevels == levels[..i] + [4] + levels[i + 2..]
    ensures carryLeft == (if i == 0 then leaves[0] else 0)
    ensures carryRight == (if i + 2 == |leaves| then leaves[i + 1] else 0)
  {
  }

  /** `Explodes`, from its parts at the explosion's index `i`. */
  lemma ExplodesIntro(leaves: seq<nat>, levels: seq<nat>, newLeaves: seq<nat>, newLevels: seq<nat>, carryLeft: nat, carryRight: nat, i: nat)
    requires |leaves| == |levels| && i + 1 < |leaves|
    requires FirstAtLeast(levels, 5) == i && levels[i] == 5 && levels[i + 1] == 5
    requires newLeaves == ExplodeLeaves(leaves, i)
    requires newLevels == levels[..i] + [4] + levels[i + 2..]
    requires carryLeft == (if i == 0 then leaves[0] else 0)
    requires carryRight == (if i + 2 == |leaves| then leaves[i + 1] else 0)
    ensures Explodes(leaves, levels, newLeaves, newLevels, carryLeft, carryRight)
  {
  }

  /** `inner_explode`'s outcome on a pair or element with these literals and levels. */
  predicate ExplodeSpec(leaves: seq<nat>, levels: seq<nat>, depth: nat, r: Explosion)
    requires |leaves| == |levels|
  {
    (r.Continue? <==> NoDeep(levels)) &&
    (Shallow(levels) ==> !r.Panic?) &&
    (r.Break? ==> Explodes(leaves, levels, r.number.Leaves(), r.number.Levels(depth), r.carryLeft, r.carryRight))
  }

  /**
   * `inner_explode` on a pair at nesting `depth`: at depth 4 a nested
   * child is the pair that explodes; above it the left child is searched
   * before the right one, and the carried values are added on the way
   * back up.
   */
  function ExplodeAt(n: SnailNumber, depth: nat): (r: Explosion)
    requires 1 <= depth <= 4
    ensures ExplodeSpec(n.Leaves(), n.Levels(depth), depth, r)
    decreases n
  {
    if depth == 4 then ExplodeHere(n)
    else
      var fromLeft := ExplodeChild(n.left, depth);
      match fromLeft
      case Break(newLeft, a, b) =>
        ExplodedLeft(n, depth, fromLeft);
        Break(SnailNumber(Recursion(newLeft), n.right.AddLeftmost(b)), a, 0)
      case Panic =>
        PanickedLeft(n, depth);
        Panic
      case Continue =>
        var fromRight := ExplodeChild(n.right, depth);
        match fromRight
        case Break(newRight, a, b) =>
          ExplodedRight(n, depth, fromRight);
          Break(SnailNumber(n.left.AddRightmost(a), Recursion(newRight)), 0, b)
        case _ =>
          PassedRight(n, depth, fromRight);
          fromRight
  }

  /** The `if let SnailElement::Recursion(..)` of a child of a pair at `depth`: only a pair is searched. */
  function ExplodeChild(e: SnailElement, depth: nat): (r: Explosion)
    requires 1 <= depth < 4
    ensures ExplodeSpec(e.Leaves(), e.Levels(depth), depth + 1, r)
    decreases e
  {
    match e
    case Literal(_) => Continue
    case Recursion(inner) => ExplodeAt(inner, depth + 1)
  }

  lemma ExplodedLeft(n: SnailNumber, depth: nat, fromLeft: Explosion)
    requires 1 <= depth < 4 && fromLeft.Break?
    requires ExplodeSpec(n.left.Leaves(), n.left.Levels(depth), depth + 1, fromLeft)
    ensures ExplodeSpec(n.Leaves(), n.Levels(depth), depth,
      Break(SnailNumber(Recursion(fromLeft.number), n.right.AddLeftmost(fromLeft.carryRight)), fromLeft.carryLeft, 0))
  {
    NoDeepAppend(n.left.Levels(depth), n.right.Levels(depth));
    AddLeftmostLevels(n.right, fromLeft.carryRight, depth);
    ExplodesLeft(n.left.Leaves(), n.left.Levels(depth), n.right.Leaves(), n.right.Levels(depth),
      fromLeft.number.Leaves(), fromLeft.number.Levels(depth + 1), fromLeft.carryLeft, fromLeft.carryRight);
  }

  lemma PanickedLeft(n: SnailNumber, depth: nat)
    requires 1 <= depth < 4
    requires ExplodeSpec(n.left.Leaves(), n.left.Levels(depth), depth + 1, Panic)
    ensures ExplodeSpec(n.Leaves(), n.Levels(depth), depth, Panic)
  {
    NoDeepAppend(n.left.Levels(depth), n.right.Levels(depth));
    ShallowAppend(n.left.Levels(depth), n.right.Levels(depth));
  }

  lemma ExplodedRight(n: SnailNumber, depth: nat, fromRight: Explosion)
    requires 1 <= depth < 4 && fromRight.Break?
    requires NoDeep(n.left.Levels(depth))
    requires ExplodeSpec(n.right.Leaves(), n.right.Levels(depth), depth + 1, fromRight)
    ensures ExplodeSpec(n.Leaves(), n.Levels(depth), depth,
      Break(SnailNumber(n.left.AddRightmost(fromRight.carryLeft), Recursion(fromRight.number)), 0, fromRight.carryRight))
  {
    NoDeepAppend(n.left.Levels(depth), n.right.Levels(depth));
    AddRightmostLevels(n.left, fromRight.carryLeft, depth);
    ExplodesRight(n.left.Leaves(), n.left.Levels(depth), n.right.Leaves(), n.right.Levels(depth),
      fromRight.number.Leaves(), fromRight.number.Levels(depth + 1), fromRight.carryLeft, fromRight.carryRight);
  }

  lemma PassedRight(n: SnailNumber, depth: nat, fromRight: Explosion)
    requires 1 <= depth < 4 && !fromRight.Break?
    requires NoDeep(n.left.Levels(depth))
    requires ExplodeSpec(n.right.Leaves(), n.right.Levels(depth), depth + 1, fromRight)
    ensures ExplodeSpec(n.Leaves(), n.Levels(depth), depth, fromRight)
  {
    NoDeepAppend(n.left.Levels(depth), n.right.Levels(depth));
    ShallowAppend(n.left.Levels(depth), n.right.Levels(depth));
  }

  /** The depth-4 case of `inner_explode`: explode the left child if it is a pair, else the right child if it is one. */
  function ExplodeHere(n: SnailNumber): (r: Explosion)
    ensures ExplodeSpec(n.Leaves(), n.Levels(4), 4, r)
  {
    match n
    case SnailNumber(Recursion(inner), right) =>
      (match inner
       case SnailNumber(Literal(a), Literal(b)) =>
         ExplodedHereLeft(a, b, right);
         Break(SnailNumber(Literal(0), right.AddLeftmost(b)), a, 0)
       case _ =>
         PanickedHereLeft(inner, right);
         Panic)
    case SnailNumber(Literal(c), Recursion(inner)) =>
      (match inner
       case SnailNumber(Literal(a), Literal(b)) =>
         ExplodedHereRight(c, a, b);
         Break(SnailNumber(Literal(c + a), Literal(0)), 0, b)
       case _ =>
         PanickedHereRight(c, inner);
         Panic)
    case SnailNumber(Literal(c), Literal(d)) =>
      assert n.Levels(4) == [4, 4];
      Continue
  }

  lemma ExplodedHereLeft(a: nat, b: nat, right: SnailElement)
    ensures var n := SnailNumber(Recursion(SnailNumber(Literal(a), Literal(b))), right);
      ExplodeSpec(n.Leaves(), n.Levels(4), 4, Break(SnailNumber(Literal(0), right.AddLeftmost(b)), a, 0))
  {
    var n := SnailNumber(Recursion(SnailNumber(Literal(a), Literal(b))), right);
    var m := SnailNumber(Literal(0), right.AddLeftmost(b));
    assert SnailNumber(Literal(a), Literal(b)).Leaves() == [a, b];
    assert SnailNumber(Literal(a), Literal(b)).Levels(5) == [5, 5];
    AddLeftmostLevels(right, b, 4);
    ExplodesFront(a, b, right.Leaves(), right.Levels(4));
    assert n.Leaves() == [a, b] + right.Leaves();
    assert n.Levels(4) == [5, 5] + right.Levels(4);
    assert m.Leaves() == [0] + AddFirst(right.Leaves(), b);
    assert m.Levels(4) == [4] + right.Levels(4);
    ExplodeSpecBreak(n.Leaves(), n.Levels(4), 4, m, a, 0);
  }

  /** A `Break` meets `ExplodeSpec` once its explosion does. */
  lemma ExplodeSpecBreak(leaves: seq<nat>, levels: seq<nat>, depth: nat, m: SnailNumber, carryLeft: nat, carryRight: nat)
    requires |leaves| == |levels|
    requires Explodes(leaves, levels, m.Leaves(), m.Levels(depth), carryLeft, carryRight)
    ensures ExplodeSpec(leaves, levels, depth, Break(m, carryLeft, carryRight))
  {
  }

  /** A level-5 pair at the front explodes into a 0 whose right neighbour takes the pair's right literal. */
  lemma ExplodesFront(a: nat, b: nat, rest: seq<nat>, restLevels: seq<nat>)
    requires |rest| == |restLevels| && rest != []
    ensures Explodes([a, b] + rest, [5, 5] + restLevels, [0] + AddFirst(rest, b), [4] + restLevels, a, 0)
  {
    var leaves, levels := [a, b] + rest, [5, 5] + restLevels;
    assert levels[0] == 5 && levels[1] == 5;
    assert FirstAtLeast(levels, 5) == 0;
    assert leaves[2..] == rest && levels[2..] == restLevels;
    assert leaves[..0] == [] && levels[..0] == [];
    assert AddLast([], a) == [];
    assert ExplodeLeaves(leaves, 0) == [0] + AddFirst(rest, b);
    assert levels[..0] + [4] + levels[2..] == [4] + restLevels;
    ExplodesIntro(leaves, levels, [0] + AddFirst(rest, b), [4] + restLevels, a, 0, 0);
  }

  lemma ExplodedHereRight(c: nat, a: nat, b: nat)
    ensures var n := SnailNumber(Literal(c), Recursion(SnailNumber(Literal(a), Literal(b))));
      ExplodeSpec(n.Leaves(), n.Levels(4), 4, Break(SnailNumber(Literal(c + a), Literal(0)), 0, b))
  {
    var n := SnailNumber(Literal(c), Recursion(SnailNumber(Literal(a), Literal(b))));
    assert SnailNumber(Literal(a), Literal(b)).Leaves() == [a, b];
    assert SnailNumber(Literal(a), Literal(b)).Levels(5) == [5, 5];
    var m := SnailNumber(Literal(c + a), Literal(0));
    assert n.Leaves() == [c, a, b];
    assert n.Levels(4) == [4, 5, 5];
    assert m.Leaves() == [c + a, 0] && m.Levels(4) == [4, 4];
    ExplodesBack(c, a, b);
    ExplodeSpecBreak(n.Leaves(), n.Levels(4), 4, m, 0, b);
  }

  /** A level-5 pair after a literal at level 4 explodes into a 0 that the literal's value absorbs on the left. */
  lemma ExplodesBack(c: nat, a: nat, b: nat)
    ensures Explodes([c, a, b], [4, 5, 5], [c + a, 0], [4, 4], 0, b)
  {
    var levels := [4, 5, 5];
    assert FirstAtLeast(levels, 5) == 1 by {
      assert levels[1..] == [5, 5];
    }
    assert [c, a, b][..1] == [c] && [c, a, b][3..] == [];
    assert levels[..1] == [4] && levels[3..] == [];
    ExplodesIntro([c, a, b], levels, [c + a, 0], [4, 4], 0, b, 1);
  }

  lemma PanickedHereLeft(inner: SnailNumber, right: SnailElement)
    requires !(inner.left.Literal? && inner.right.Literal?)
    ensures var n := SnailNumber(Recursion(inner), right);
      ExplodeSpec(n.Leaves(), n.Levels(4), 4, Panic)
  {
    var n := SnailNumber(Recursion(inner), right);
    DeepChild(inner, 5);
    var k :| 0 <= k < |inner.Levels(5)| && inner.Levels(5)[k] > 5;
    assert n.Levels(4)[k] == inner.Levels(5)[k];
    assert n.Levels(4)[0] == inner.Levels(5)[0];
  }

  lemma PanickedHereRight(c: nat, inner: SnailNumber)
    requires !(inner.left.Literal? && inner.right.Literal?)
    ensures var n := SnailNumber(Literal(c), Recursion(inner));
      ExplodeSpec(n.Leaves(), n.Levels(4), 4, Panic)
  {
    var n := SnailNumber(Literal(c), Recursion(inner));
    DeepChild(inner, 5);
    var k :| 0 <= k < |inner.Levels(5)| && inner.Levels(5)[k] > 5;
    assert n.Levels(4) == [4] + inner.Levels(5);
    assert n.Levels(4)[1 + k] == inner.Levels(5)[k];
    assert FirstAtLeast(n.Levels(4), 5) == 1 + FirstAtLeast(inner.Levels(5), 5) by {
      assert n.Levels(4)[1..] == inner.Levels(5);
    }
  }

  /** A pair that does not hold two literals has a literal below its own level. */
  lemma DeepChild(n: SnailNumber, level: nat)
    requires !(n.left.Literal? && n.right.Literal?)
    ensures exists k :: 0 <= k < |n.Levels(level)| && n.Levels(level)[k] > level
  {
    if n.left.Recursion? {
      assert n.Levels(level)[0] == n.left.Levels(level)[0];
    } else {
      assert n.Levels(level)[1] == n.right.Levels(level)[0];
    }
  }

  /**
   * `explode`: the leftmost pair nested inside four pairs is replaced by
   * 0, its left literal added to the nearest literal on its left and its
   * right literal to the nearest on its right; a number without such a
   * pair is unchanged. `None` is the source's panic, which cannot happen
   * while no literal is nested deeper than five pairs.
   */
  function Explode(n: SnailNumber): (r: Option<SnailNumber>)
    ensures Shallow(n.Levels(1)) ==> r.Some?
    ensures r.Some? && NoDeep(n.Levels(1)) ==> r.value == n
    ensures r.Some? && !NoDeep(n.Levels(1)) ==> ExplodedTo(n.Leaves(), n.Levels(1), r.value.Leaves(), r.value.Levels(1))
  {
    match ExplodeAt(n, 1)
    case Break(m, _, _) => Some(m)
    case Continue => Some(n)
    case Panic => None
  }

  // ---------------------------------------------------------------------
  // split

  /** A literal of ten or more becomes the pair of its halves, rounding down then up. */
  function Halves(x: nat): SnailElement {
    Recursion(SnailNumber(Literal(x / 2), Literal((x + 1) / 2)))
  }

  /** The literals after splitting the one at `i`. */
  function SplitLeaves(s: seq<nat>, i: nat): seq<nat>
    requires i < |s|
  {
    s[..i] + [s[i] / 2, (s[i] + 1) / 2] + s[i + 1..]
  }

  /** The levels after splitting the literal at `i`: it becomes two literals one level deeper. */
  function SplitLevels(s: seq<nat>, i: nat): seq<nat>
    requires i < |s|
  {
    s[..i] + [s[i] + 1, s[i] + 1] + s[i + 1..]
  }

  /** A split, on the literals: the first literal of ten or more becomes its two halves. */
  predicate SplitTo(leaves: seq<nat>, newLeaves: seq<nat>) {
    var i := FirstAtLeast(leaves, 10);
    i < |leaves| && newLeaves == SplitLeaves(leaves, i)
  }

  /** The same split on the levels: the split literal's two halves are one level below it. */
  predicate SplitLevelsTo(leaves: seq<nat>, levels: seq<nat>, newLevels: seq<nat>)
    requires |leaves| == |levels|
  {
    var i := FirstAtLeast(leaves, 10);
    i < |leaves| && newLevels == SplitLevels(levels, i)
  }

  lemma SplitToLeft(s: seq<nat>, t: seq<nat>, ns: seq<nat>)
    requires SplitTo(s, ns)
    ensures SplitTo(s + t, ns + t)
  {
    var i := FirstAtLeast(s, 10);
    assert ns == SplitLeaves(s, i);
    FirstAtLeastAppend(s, t, 10);
    assert FirstAtLeast(s + t, 10) == i;
    SplitLeavesLeft(s, t, i);
    assert FirstAtLeast(s + t, 10) < |s + t| && ns + t == SplitLeaves(s + t, FirstAtLeast(s + t, 10));
  }

  lemma SplitLeavesLeft(s: seq<nat>, t: seq<nat>, i: nat)
    requires i < |s|
    ensures SplitLeaves(s, i) + t == SplitLeaves(s + t, i)
  {
    var pre, halves, post := s[..i], [s[i] / 2, (s[i] + 1) / 2], s[i + 1..];
    assert (s + t)[..i] == pre && (s + t)[i] == s[i];
    assert (s + t)[i + 1..] == post + t;
  }

  lemma SplitToRight(s: seq<nat>, t: seq<nat>, nt: seq<nat>)
    requires FirstAtLeast(s, 10) == |s|
    requires SplitTo(t, nt)
    ensures SplitTo(s + t, s + nt)
  {
    var j := FirstAtLeast(t, 10);
    var at := |s| + j;
    assert nt == SplitLeaves(t, j);
    FirstAtLeastAppend(s, t, 10);
    assert FirstAtLeast(s + t, 10) == at;
    SplitLeavesRight(s, t, j, at);
  }

  lemma SplitLeavesRight(s: seq<nat>, t: seq<nat>, j: nat, at: nat)
    requires j < |t| && at == |s| + j
    ensures s + SplitLeaves(t, j) == SplitLeaves(s + t, at)
  {
    var pre, halves, post := t[..j], [t[j] / 2, (t[j] + 1) / 2], t[j + 1..];
    assert (s + t)[..at] == s + pre && (s + t)[at] == t[j];
    assert (s + t)[at + 1..] == post;
    ConcatAssoc(s, pre, halves, post);
  }

  lemma ConcatAssoc(a: seq<nat>, b: seq<nat>, c: seq<nat>, d: seq<nat>)
    ensures a + (b + c + d) == (a + b) + c + d
  {
  }

  lemma SplitLevelsToLeft(s: seq<nat>, sl: seq<nat>, t: seq<nat>, tl: seq<nat>, nsl: seq<nat>)
    requires |s| == |sl| && |t| == |tl|
    requires SplitLevelsTo(s, sl, nsl)
    ensures SplitLevelsTo(s + t, sl + tl, nsl + tl)
  {
    var i := FirstAtLeast(s, 10);
    FirstAtLeastAppend(s, t, 10);
    assert (sl + tl)[..i] == sl[..i] && (sl + tl)[i] == sl[i];
    assert (sl + tl)[i + 1..] == sl[i + 1..] + tl;
  }

  lemma SplitLevelsToRight(s: seq<nat>, sl: seq<nat>, t: seq<nat>, tl: seq<nat>, ntl: seq<nat>)
    requires |s| == |sl| && |t| == |tl|
    requires FirstAtLeast(s, 10) == |s|
    requires SplitLevelsTo(t, tl, ntl)
    ensures SplitLevelsTo(s + t, sl + tl, sl + ntl)
  {
    var j := FirstAtLeast(t, 10);
    var at := |s| + j;
    FirstAtLeastAppend(s, t, 10);
    assert FirstAtLeast(s + t, 10) == at;
    SplitLevelsRight(sl, tl, j, at);
  }

  lemma SplitLevelsRight(sl: seq<nat>, tl: seq<nat>, j: nat, at: nat)
    requires j < |tl| && at == |sl| + j
    ensures sl + SplitLevels(tl, j) == SplitLevels(sl + tl, at)
  {
    var pre, halves, post := tl[..j], [tl[j] + 1, tl[j] + 1], tl[j + 1..];
    assert (sl + tl)[..at] == sl + pre && (sl + tl)[at] == tl[j];
    assert (sl + tl)[at + 1..] == post;
    ConcatAssoc(sl, pre, halves, post);
  }

  /** `inner_split`: splits the leftmost literal of ten or more, reporting whether there was one. */
  function InnerSplit(n: SnailNumber): (r: (SnailNumber, bool))
    ensures r.1 <==> FirstAtLeast(n.Leaves(), 10) < |n.Leaves()|
    ensures !r.1 ==> r.0 == n
    ensures r.1 ==> SplitTo(n.Leaves(), r.0.Leaves())
    decreases n
  {
    FirstAtLeastAppend(n.left.Leaves(), n.right.Leaves(), 10);
    var (left, leftDone) := SplitElement(n.left);
    if leftDone then
      SplitToLeft(n.left.Leaves(), n.right.Leaves(), left.Leaves());
      (SnailNumber(left, n.right), true)
    else
      var (right, rightDone) := SplitElement(n.right);
      if rightDone then
        SplitToRight(n.left.Leaves(), n.right.Leaves(), right.Leaves());
        (SnailNumber(n.left, right), true)
      else (n, false)
  }

  /** One arm of `inner_split`'s matches: a big literal splits, a pair is searched, a small literal is left. */
  function SplitElement(e: SnailElement): (r: (SnailElement, bool))
    ensures r.1 <==> FirstAtLeast(e.Leaves(), 10) < |e.Leaves()|
    ensures !r.1 ==> r.0 == e
    ensures r.1 ==> SplitTo(e.Leaves(), r.0.Leaves())
    decreases e
  {
    match e
    case Literal(x) =>
      if x >= 10 then
        assert Halves(x).inner.Leaves() == [x / 2, (x + 1) / 2];
        (Halves(x), true)
      else (e, false)
    case Recursion(inner) =>
      var (m, done) := InnerSplit(inner);
      (if done then Recursion(m) else e, done)
  }

  /** The split literal's two halves are one level below it; every other literal keeps its level. */
  lemma {:induction false} InnerSplitLevels(n: SnailNumber, level: nat)
    requires InnerSplit(n).1
    ensures SplitLevelsTo(n.Leaves(), n.Levels(level), InnerSplit(n).0.Levels(level))
    decreases n
  {
    FirstAtLeastAppend(n.left.Leaves(), n.right.Leaves(), 10);
    var left := SplitElement(n.left);
    if left.1 {
      SplitElementLevels(n.left, level);
      SplitLevelsToLeft(n.left.Leaves(), n.left.Levels(level), n.right.Leaves(), n.right.Levels(level), left.0.Levels(level));
    } else {
      var right := SplitElement(n.right);
      SplitElementLevels(n.right, level);
      SplitLevelsToRight(n.left.Leaves(), n.left.Levels(level), n.right.Leaves(), n.right.Levels(level), right.0.Levels(level));
    }
  }

  lemma {:induction false} SplitElementLevels(e: SnailElement, level: nat)
    requires SplitElement(e).1
    ensures SplitLevelsTo(e.Leaves(), e.Levels(level), SplitElement(e).0.Levels(level))
    decreases e
  {
    match e
    case Literal(x) =>
      assert Halves(x).inner.Levels(level + 1) == [level + 1, level + 1];
    case Recursion(inner) =>
      InnerSplitLevels(inner, level + 1);
  }

  /** `split`: the leftmost literal of ten or more becomes the pair of its halves, one level deeper; nothing else changes. */
  function Split(n: SnailNumber): (r: SnailNumber)
    ensures FirstAtLeast(n.Leaves(), 10) == |n.Leaves()| ==> r == n
    ensures FirstAtLeast(n.Leaves(), 10) < |n.Leaves()| ==>
      SplitTo(n.Leaves(), r.Leaves()) && SplitLevelsTo(n.Leaves(), n.Levels(1), r.Levels(1))
  {
    if InnerSplit(n).1 then
      InnerSplitLevels(n, 1);
      InnerSplit(n).0
    else n
  }

  // ---------------------------------------------------------------------
  // reduce

  /** Neither rule applies: no pair is nested inside four pairs and every literal is below ten. */
  predicate IsReduced(n: SnailNumber) {
    n.Depth() <= 4 && n.Max() < 10
  }

  /** What one pass of `reduce`'s loop does. */
  datatype Step = Stop | Rewrite(next: SnailNumber) | Stuck

  /** One pass of `reduce`'s loop: explode if some pair is nested inside four pairs, else split if some literal is ten or more, else stop. */
  function ReduceStep(n: SnailNumber): (r: Step)
    ensures r.Stop? <==> IsReduced(n)
  {
    if n.Depth() > 4 then
      match Explode(n)
      case None => Stuck
      case Some(m) => Rewrite(m)
    else if n.Max() >= 10 then Rewrite(Split(n))
    else Stop
  }

  /** How `reduce` ends: with a number, in the source's panic, or after `fuel` rewrites without finishing. */
  datatype Outcome = Done(number: SnailNumber) | Panicked | OutOfFuel

  /** A loop whose body is `step`, run until it stops or gets stuck, with at most `fuel` rewrites. */
  function Iterate(step: SnailNumber -> Step, n: SnailNumber, fuel: nat): (r: Outcome)
    ensures r.Done? ==> step(r.number).Stop?
    ensures step(n).Stop? ==> r == Done(n)
    decreases fuel
  {
    match step(n)
    case Stop => Done(n)
    case Stuck => Panicked
    case Rewrite(m) => if fuel == 0 then OutOfFuel else Iterate(step, m, fuel - 1)
  }

  lemma IterateRewrite(step: SnailNumber -> Step, n: SnailNumber, next: SnailNumber, fuel: nat)
    requires step(n) == Rewrite(next) && fuel > 0
    ensures Iterate(step, n, fuel) == Iterate(step, next, fuel - 1)
  {
  }

  /** Once the loop finishes, more fuel changes nothing. */
  lemma {:induction false} IterateFuel(step: SnailNumber -> Step, n: SnailNumber, fuel: nat, more: nat)
    requires Iterate(step, n, fuel).Done? && fuel <= more
    ensures Iterate(step, n, more) == Iterate(step, n, fuel)
    decreases fuel
  {
    if step(n).Rewrite? {
      IterateFuel(step, step(n).next, fuel - 1, more - 1);
    }
  }

  /** A property that the step keeps and under which it never gets stuck rules out a stuck loop. */
  lemma {:induction false} IterateInvariant(step: SnailNumber -> Step, inv: SnailNumber -> bool, n: SnailNumber, fuel: nat)
    requires inv(n)
    requires forall x :: inv(x) ==> !step(x).Stuck? && (step(x).Rewrite? ==> inv(step(x).next))
    ensures !Iterate(step, n, fuel).Panicked?
    decreases fuel
  {
    if step(n).Rewrite? && fuel > 0 {
      IterateInvariant(step, inv, step(n).next, fuel - 1);
    }
  }

  /**
   * `reduce`: the rewrites of its loop, at most `fuel` of them; a reduced
   * number is left as it is. Whether every reduction finishes is not
   * modelled.
   */
  function Reduction(n: SnailNumber, fuel: nat): (r: Outcome)
    ensures r.Done? ==> IsReduced(r.number)
    ensures IsReduced(n) ==> r == Done(n)
  {
    Iterate(ReduceStep, n, fuel)
  }

  /** A loop whose body is `step`, on `current`, stopped after `fuel` rewrites. */
  method RunLoop(step: SnailNumber -> Step, n: SnailNumber, fuel: nat) returns (r: Outcome)
    ensures r == Iterate(step, n, fuel)
  {
    var current := n;
    var remaining := fuel;
    while true
      invariant Iterate(step, current, remaining) == Iterate(step, n, fuel)
      decreases remaining
    {
      match step(current)
      case Stop =>
        return Done(current);
      case Stuck =>
        return Panicked;
      case Rewrite(next) =>
        if remaining == 0 {
          return OutOfFuel;
        }
        IterateRewrite(step, current, next, remaining);
        current := next;
        remaining := remaining - 1;
    }
  }

  /** `reduce`: its loop with the explode-or-split body. */
  method Reduce(n: SnailNumber, fuel: nat) returns (r: Outcome)
    ensures r == Reduction(n, fuel)
  {
    r := RunLoop(ReduceStep, n, fuel);
  }

  /** Once a literal is nested at most five deep, an explosion or a split keeps it so. */
  lemma ShallowExploded(levels: seq<nat>, i: nat)
    requires i + 1 < |levels| && Shallow(levels)
    ensures Shallow(levels[..i] + [4] + levels[i + 2..])
  {
    var t := levels[..i] + [4] + levels[i + 2..];
    forall k | 0 <= k < |t| ensures t[k] <= 5 {
      if k > i {
        assert t[k] == levels[k + 1];
      } else if k < i {
        assert t[k] == levels[k];
      }
    }
  }

  lemma ShallowSplit(levels: seq<nat>, i: nat)
    requires i < |levels| && forall k :: 0 <= k < |levels| ==> levels[k] <= 4
    ensures Shallow(SplitLevels(levels, i))
  {
    var t := SplitLevels(levels, i);
    forall k | 0 <= k < |t| ensures t[k] <= 5 {
      if k > i + 1 {
        assert t[k] == levels[k - 1];
      } else if k < i {
        assert t[k] == levels[k];
      }
    }
  }

  /** A pass of the loop on a number with no literal nested more than five deep never panics and keeps that so. */
  lemma ReduceStepShallow(n: SnailNumber)
    requires Shallow(n.Levels(1))
    ensures !ReduceStep(n).Stuck?
    ensures ReduceStep(n).Rewrite? ==> Shallow(ReduceStep(n).next.Levels(1))
  {
    NumberDepthLevels(n);
    if n.Depth() > 4 {
      assert Explode(n).Some? && !NoDeep(n.Levels(1));
      ShallowExploded(n.Levels(1), FirstAtLeast(n.Levels(1), 5));
    } else if n.Max() >= 10 {
      ShallowSplit(n.Levels(1), FirstAtLeast(n.Leaves(), 10));
    }
  }

  /** `reduce` never panics on a number with no literal nested more than five deep, such as the sum of two reduced numbers. */
  lemma ReductionNoPanic(n: SnailNumber, fuel: nat)
    requires Shallow(n.Levels(1))
    ensures !Reduction(n, fuel).Panicked?
  {
    forall x: SnailNumber | Shallow(x.Levels(1))
      ensures !ReduceStep(x).Stuck? && (ReduceStep(x).Rewrite? ==> Shallow(ReduceStep(x).next.Levels(1)))
    {
      ReduceStepShallow(x);
    }
    IterateInvariant(ReduceStep, (x: SnailNumber) => Shallow(x.Levels(1)), n, fuel);
  }

  /** With enough fuel to finish, the result does not depend on how much more is given. */
  lemma ReductionFuel(n: SnailNumber, fuel: nat, more: nat)
    requires Reduction(n, fuel).Done? && fuel <= more
    ensures Reduction(n, more) == Reduction(n, fuel)
  {
    IterateFuel(ReduceStep, n, fuel, more);
  }

  // ---------------------------------------------------------------------
  // Add and Sum

  /** `Add`: the pair of both operands, reduced. */
  function Add(a: SnailNumber, b: SnailNumber, fuel: nat): (r: Outcome)
    ensures r.Done? ==> IsReduced(r.number)
    ensures IsReduced(a) && IsReduced(b) ==> !r.Panicked?
  {
    var pair := SnailNumber(Recursion(a), Recursion(b));
    if IsReduced(a) && IsReduced(b) then
      PairShallow(a, b);
      ReductionNoPanic(pair, fuel);
      Reduction(pair, fuel)
    else Reduction(pair, fuel)
  }

  /** Pairing two numbers of depth at most 4 nests no literal more than five deep. */
  lemma PairShallow(a: SnailNumber, b: SnailNumber)
    requires a.Depth() <= 4 && b.Depth() <= 4
    ensures Shallow(SnailNumber(Recursion(a), Recursion(b)).Levels(1))
  {
    DepthLevels(Recursion(a), 1);
    DepthLevels(Recursion(b), 1);
    var pair := SnailNumber(Recursion(a), Recursion(b));
    assert pair.Levels(1) == a.Levels(2) + b.Levels(2);
    ShallowJoin(a.Levels(2), b.Levels(2));
  }

  lemma ShallowJoin(s: seq<nat>, t: seq<nat>)
    requires Shallow(s) && Shallow(t)
    ensures Shallow(s + t)
  {
    forall k | 0 <= k < |s + t| ensures (s + t)[k] <= 5 {
      if k >= |s| {
        assert (s + t)[k] == t[k - |s|];
      }
    }
  }

  /** A left fold by `add`: the first number, then each following one added in turn; `None` for no numbers. */
  function Fold(add: (SnailNumber, SnailNumber) -> Outcome, numbers: seq<SnailNumber>): (r: Option<Outcome>)
    ensures r.None? <==> numbers == []
  {
    if numbers == [] then None
    else if |numbers| == 1 then Some(Done(numbers[0]))
    else
      match Fold(add, numbers[..|numbers| - 1])
      case Some(Done(current)) => Some(add(current, numbers[|numbers| - 1]))
      case other => other
  }

  /** Once an addition fails, the fold keeps that failure to the end. */
  lemma {:induction false} FoldStuck(add: (SnailNumber, SnailNumber) -> Outcome, numbers: seq<SnailNumber>, i: nat)
    requires 2 <= i <= |numbers|
    requires Fold(add, numbers[..i]).Some? && !Fold(add, numbers[..i]).value.Done?
    ensures Fold(add, numbers) == Fold(add, numbers[..i])
    decreases |numbers| - i
  {
    if i < |numbers| {
      assert numbers[..i + 1][..i] == numbers[..i];
      FoldStuck(add, numbers, i + 1);
    } else {
      assert numbers[..i] == numbers;
    }
  }

  /** A property of the numbers that `add` keeps and under which it never panics rules out a panicking fold. */
  lemma {:induction false} FoldInvariant(add: (SnailNumber, SnailNumber) -> Outcome, inv: SnailNumber -> bool, numbers: seq<SnailNumber>)
    requires forall k :: 0 <= k < |numbers| ==> inv(numbers[k])
    requires forall a, b :: inv(a) && inv(b) ==> !add(a, b).Panicked? && (add(a, b).Done? ==> inv(add(a, b).number))
    ensures Fold(add, numbers).Some? && Fold(add, numbers).value.Done? ==> inv(Fold(add, numbers).value.number)
    ensures Fold(add, numbers).Some? ==> !Fold(add, numbers).value.Panicked?
  {
    if |numbers| >= 2 {
      FoldInvariant(add, inv, numbers[..|numbers| - 1]);
    }
  }

  /** A loop folding `numbers` by `add`, proved to compute `Fold`. */
  method RunFold(add: (SnailNumber, SnailNumber) -> Outcome, numbers: seq<SnailNumber>) returns (r: Option<Outcome>)
    ensures r == Fold(add, numbers)
  {
    if numbers == [] {
      return None;
    }
    var current := numbers[0];
    var i := 1;
    while i < |numbers|
      invariant 1 <= i <= |numbers|
      invariant Fold(add, numbers[..i]) == Some(Done(current))
    {
      assert numbers[..i + 1][..i] == numbers[..i];
      var added := add(current, numbers[i]);
      if !added.Done? {
        FoldStuck(add, numbers, i + 1);
        return Some(added);
      }
      current := added.number;
      i := i + 1;
    }
    assert numbers[..i] == numbers;
    return Some(Done(current));
  }

  /** A fold over two or more numbers that finishes ends with an addition. */
  lemma FoldAdded(add: (SnailNumber, SnailNumber) -> Outcome, numbers: seq<SnailNumber>)
    requires |numbers| >= 2 && Fold(add, numbers).Some? && Fold(add, numbers).value.Done?
    ensures exists a, b :: add(a, b) == Fold(add, numbers).value
  {
    var current := Fold(add, numbers[..|numbers| - 1]).value.number;
    assert add(current, numbers[|numbers| - 1]) == Fold(add, numbers).value;
  }

  /** `Sum`: the first number, then each following one added in turn; a sum of two or more that finishes is reduced. */
  function SumOf(numbers: seq<SnailNumber>, fuel: nat): (r: Option<Outcome>)
    ensures r.None? <==> numbers == []
    ensures |numbers| >= 2 && r.Some? && r.value.Done? ==> IsReduced(r.value.number)
  {
    var add := Adder(fuel);
    if |numbers| >= 2 && Fold(add, numbers).Some? && Fold(add, numbers).value.Done? then
      FoldAdded(add, numbers);
      Fold(add, numbers)
    else Fold(add, numbers)
  }

  /** `Sum`'s loop. */
  method Sum(numbers: seq<SnailNumber>, fuel: nat) returns (r: Option<Outcome>)
    ensures r == SumOf(numbers, fuel)
  {
    r := RunFold(Adder(fuel), numbers);
    assert r == SumOf(numbers, fuel);
  }

  /** Summing reduced numbers never panics, and a sum that finishes is reduced. */
  lemma SumOfReduced(numbers: seq<SnailNumber>, fuel: nat)
    requires forall k :: 0 <= k < |numbers| ==> IsReduced(numbers[k])
    ensures SumOf(numbers, fuel).Some? ==> !SumOf(numbers, fuel).value.Panicked?
    ensures SumOf(numbers, fuel).Some? && SumOf(numbers, fuel).value.Done? ==> IsReduced(SumOf(numbers, fuel).value.number)
  {
    FoldInvariant(Adder(fuel), IsReduced, numbers);
  }

  // ---------------------------------------------------------------------
  // magnitude

  function Pow5(k: nat): (r: nat)
    ensures r >= 1
  {
    if k == 0 then 1 else 5 * Pow5(k - 1)
  }

  lemma {:induction false} Pow5Mono(j: nat, k: nat)
    requires j <= k
    ensures Pow5(j) <= Pow5(k)
    decreases k
  {
    if j < k {
      Pow5Mono(j, k - 1);
    }
  }

  /** A magnitude is at most the largest literal times 5 to the depth. */
  lemma {:induction false} MagnitudeBound(e: SnailElement)
    ensures e.Magnitude() <= e.Max() * Pow5(e.Depth())
    decreases e
  {
    match e
    case Literal(_) =>
    case Recursion(inner) =>
      var l, r := inner.left, inner.right;
      MagnitudeBound(l);
      MagnitudeBound(r);
      var d := inner.Depth() - 1;
      Pow5Mono(l.Depth(), d);
      Pow5Mono(r.Depth(), d);
      PairBound(l.Magnitude(), r.Magnitude(), l.Max(), r.Max(), inner.Max(), Pow5(l.Depth()), Pow5(r.Depth()), Pow5(d));
  }

  lemma PairBound(magL: nat, magR: nat, maxL: nat, maxR: nat, max: nat, powL: nat, powR: nat, pow: nat)
    requires magL <= maxL * powL && magR <= maxR * powR
    requires maxL <= max && maxR <= max && powL <= pow && powR <= pow
    ensures 3 * magL + 2 * magR <= max * (5 * pow)
  {
    MulMono(maxL, max, powL);
    MulMono(maxR, max, powR);
    MulLeftMono(max, powL, pow);
    MulLeftMono(max, powR, pow);
  }

  lemma MulLeftMono(a: nat, b: nat, c: nat)
    requires b <= c
    ensures a * b <= a * c
  {
    MulMono(b, c, a);
  }

  /** The magnitude of a reduced number is at most 9 * 5^4, far inside `u32`. */
  lemma MagnitudeReduced(n: SnailNumber)
    requires IsReduced(n)
    ensures n.Magnitude() <= 5625
  {
    MagnitudeBound(Recursion(n));
    Pow5Mono(n.Depth(), 4);
    MulMono(n.Max(), 9, Pow5(n.Depth()));
    MulLeftMono(9, Pow5(n.Depth()), Pow5(4));
  }

  // ---------------------------------------------------------------------
  // parsing

  /** Length of the run of decimal digits at the front of `s`. */
  function DigitRun(s: string): (n: nat)
    ensures n <= |s|
    ensures forall k :: 0 <= k < n ==> IsDigit(s[k])
    ensures n < |s| ==> !IsDigit(s[n])
  {
    if s == [] || !IsDigit(s[0]) then 0
    else
      var n := 1 + DigitRun(s[1..]);
      assert forall k :: 1 <= k < n ==> s[k] == s[1..][k - 1];
      n
  }

  /** The literal at the front of `s`: its value and its length in characters, or `None` when the value does not fit a `u8`. */
  function LiteralPrefix(s: string): Option<(nat, nat)>
    requires |s| > 0 && IsDigit(s[0])
  {
    var n := DigitRun(s);
    if DigitsValue(s[..n]) < 256 then Some((DigitsValue(s[..n]), n)) else None
  }

  /** A longer run of digits has at least the value of a shorter one. */
  lemma {:induction false} DigitsValueMono(s: string, j: nat, k: nat)
    requires j <= k <= DigitRun(s)
    ensures DigitsValue(s[..j]) <= DigitsValue(s[..k])
    decreases k
  {
    if j < k {
      assert s[..k][..k - 1] == s[..k - 1];
      DigitsValueMono(s, j, k - 1);
    }
  }

  /** The digit loop of `parse_element`, on a `u8` accumulator. */
  method ScanLiteral(s: string) returns (r: Option<(nat, nat)>)
    requires |s| > 0 && IsDigit(s[0])
    ensures r == LiteralPrefix(s)
  {
    var val := DigitValue(s[0]);
    var chars := 1;
    assert s[..1][..0] == [];
    while chars < |s| && IsDigit(s[chars])
      invariant 1 <= chars <= DigitRun(s)
      invariant val == DigitsValue(s[..chars]) && val < 256
      decreases |s| - chars
    {
      assert s[..chars + 1][..chars] == s[..chars];
      var next := val * 10 + DigitValue(s[chars]);
      if next >= 256 {
        DigitsValueMono(s, chars + 1, DigitRun(s));
        return None;
      }
      val := next;
      chars := chars + 1;
    }
    return Some((val, chars));
  }

  /** `parse_number`: `[`, an element, `,`, an element, `]`; returns the number and the rest of the input. */
  function ParseNumber(s: string): (r: Option<(SnailNumber, string)>)
    ensures r.Some? ==> |r.value.1| < |s| && r.value.1 == s[|s| - |r.value.1|..]
    decreases |s|, 0
  {
    if |s| == 0 || s[0] != '[' then None
    else
      match ParseElement(s[1..])
      case None => None
      case Some((left, afterLeft)) =>
        if |afterLeft| == 0 || afterLeft[0] != ',' then None
        else
          match ParseElement(afterLeft[1..])
          case None => None
          case Some((right, afterRight)) =>
            if |afterRight| == 0 || afterRight[0] != ']' then None
            else Some((SnailNumber(left, right), afterRight[1..]))
  }

  /** `parse_element`: a nested number or a run of digits; anything else fails. */
  function ParseElement(s: string): (r: Option<(SnailElement, string)>)
    ensures r.Some? ==> |r.value.1| < |s| && r.value.1 == s[|s| - |r.value.1|..]
    decreases |s|, 1
  {
    if |s| == 0 then None
    else if s[0] == '[' then
      match ParseNumber(s)
      case None => None
      case Some((inner, rest)) => Some((Recursion(inner), rest))
    else if IsDigit(s[0]) then
      match LiteralPrefix(s)
      case None => None
      case Some((value, chars)) => Some((Literal(value), s[chars..]))
    else None
  }

  /** `from_str`: a number followed by nothing. */
  function FromStr(s: string): Option<SnailNumber>
  {
    match ParseNumber(s)
    case Some((n, rest)) => if rest == [] then Some(n) else None
    case None => None
  }

  /** The notation the puzzle writes numbers in. */
  function ShowNumber(n: SnailNumber): string
    decreases n
  {
    "[" + ShowElement(n.left) + "," + ShowElement(n.right) + "]"
  }

  function ShowElement(e: SnailElement): string
    decreases e
  {
    match e
    case Literal(v) => ShowNat(v)
    case Recursion(inner) => ShowNumber(inner)
  }

  lemma DigitRunShow(v: nat, rest: string)
    requires rest == [] || !IsDigit(rest[0])
    ensures DigitRun(ShowNat(v) + rest) == |ShowNat(v)|
  {
    var shown := ShowNat(v);
    var s := shown + rest;
    assert forall k :: 0 <= k < |shown| ==> s[k] == shown[k];
    assert DigitRun(s) >= |shown|;
    if |s| > |shown| {
      assert s[|shown|] == rest[0];
    }
  }

  lemma ParseNumberOf(s: string, left: SnailElement, afterLeft: string, right: SnailElement, afterRight: string)
    requires |s| > 0 && s[0] == '[' && ParseElement(s[1..]) == Some((left, afterLeft))
    requires |afterLeft| > 0 && afterLeft[0] == ',' && ParseElement(afterLeft[1..]) == Some((right, afterRight))
    requires |afterRight| > 0 && afterRight[0] == ']'
    ensures ParseNumber(s) == Some((SnailNumber(left, right), afterRight[1..]))
  {
  }

  /** Parsing the notation of a number whose literals fit a `u8` gives the number back and leaves the rest. */
  lemma {:induction false} ParseShowNumber(n: SnailNumber, rest: string)
    requires n.Max() < 256
    ensures ParseNumber(ShowNumber(n) + rest) == Some((n, rest))
    decreases n
  {
    var s := ShowNumber(n) + rest;
    var afterRight := "]" + rest;
    var afterLeft := "," + ShowElement(n.right) + afterRight;
    ShowNumberParts(n, rest, afterLeft, afterRight);
    ParseShowElement(n.left, afterLeft);
    ParseShowElement(n.right, afterRight);
    ParseNumberOf(s, n.left, afterLeft, n.right, afterRight);
  }

  /** Where the brackets and the comma of a number's notation sit. */
  lemma ShowNumberParts(n: SnailNumber, rest: string, afterLeft: string, afterRight: string)
    requires afterRight == "]" + rest && afterLeft == "," + ShowElement(n.right) + afterRight
    ensures |ShowNumber(n) + rest| > 0 && (ShowNumber(n) + rest)[0] == '['
    ensures (ShowNumber(n) + rest)[1..] == ShowElement(n.left) + afterLeft
    ensures |afterLeft| > 0 && afterLeft[0] == ',' && afterLeft[1..] == ShowElement(n.right) + afterRight
    ensures |afterRight| > 0 && afterRight[0] == ']' && afterRight[1..] == rest
  {
    var s := ShowNumber(n) + rest;
    assert s == "[" + ShowElement(n.left) + afterLeft;
  }

  lemma {:induction false} ParseShowElement(e: SnailElement, rest: string)
    requires e.Max() < 256
    requires rest == [] || !IsDigit(rest[0])
    ensures ParseElement(ShowElement(e) + rest) == Some((e, rest))
    decreases e
  {
    match e
    case Literal(v) =>
      var shown := ShowNat(v);
      var s := shown + rest;
      DigitRunShow(v, rest);
      assert s[..|shown|] == shown;
      ShowNatValue(v);
      assert s[|shown|..] == rest;
    case Recursion(inner) =>
      ParseShowNumber(inner, rest);
  }

  /** `from_str` inverts the notation. */
  lemma FromStrShow(n: SnailNumber)
    requires n.Max() < 256
    ensures FromStr(ShowNumber(n)) == Some(n)
  {
    var s := ShowNumber(n);
    ParseShowNumber(n, s[|s|..]);
    assert s + s[|s|..] == s;
  }

  /** `parse_input`: every line parsed, as `unwrap` demands; `None` if one fails. */
  function ParseInput(lines: seq<string>): (r: Option<seq<SnailNumber>>)
    ensures r.Some? <==> forall k :: 0 <= k < |lines| ==> FromStr(lines[k]).Some?
    ensures r.Some? ==> |r.value| == |lines| && forall k :: 0 <= k < |lines| ==> FromStr(lines[k]) == Some(r.value[k])
  {
    if lines == [] then Some([])
    else
      match (ParseInput(lines[..|lines| - 1]), FromStr(lines[|lines| - 1]))
      case (Some(init), Some(last)) => Some(init + [last])
      case _ =>
        assert forall k :: 0 <= k < |lines| - 1 ==> lines[..|lines| - 1][k] == lines[k];
        None
  }

  // ---------------------------------------------------------------------
  // part 1 and part 2

  /**
   * `part1`: the magnitude of the sum of all lines. `None` where the
   * source panics (a line that does not parse, no lines, a reduction that
   * panics) and where an addition needs more than `fuel` rewrites.
   */
  function Part1(lines: seq<string>, fuel: nat): (r: Option<nat>)
    ensures r.Some? <==> ParseInput(lines).Some? && SumOf(ParseInput(lines).value, fuel).Some?
                         && SumOf(ParseInput(lines).value, fuel).value.Done?
    ensures r.Some? ==> lines != [] && r.value == SumOf(ParseInput(lines).value, fuel).value.number.Magnitude()
    ensures r.Some? && |lines| >= 2 ==> r.value <= 5625
  {
    var parsed := ParseInput(lines);
    if parsed.None? then None
    else
      var total := SumOf(parsed.value, fuel);
      if total.Some? && total.value.Done? then
        SumMagnitude(parsed.value, fuel);
        Some(total.value.number.Magnitude())
      else None
  }

  /** The magnitude of a finished sum of two or more numbers fits the bound of a reduced number. */
  lemma SumMagnitude(numbers: seq<SnailNumber>, fuel: nat)
    requires SumOf(numbers, fuel).Some? && SumOf(numbers, fuel).value.Done?
    ensures |numbers| >= 2 ==> SumOf(numbers, fuel).value.number.Magnitude() <= 5625
  {
    if |numbers| >= 2 {
      MagnitudeReduced(SumOf(numbers, fuel).value.number);
    }
  }

  /** Every ordered pair of different numbers adds up without failing. */
  predicate AllPairsDone(add: (SnailNumber, SnailNumber) -> Outcome, numbers: seq<SnailNumber>) {
    forall p, q :: 0 <= p < |numbers| && 0 <= q < |numbers| && numbers[p] != numbers[q] ==> add(numbers[p], numbers[q]).Done?
  }

  /** Every ordered pair of different numbers adds up to a magnitude of at most `max`. */
  predicate AllPairsWithin(add: (SnailNumber, SnailNumber) -> Outcome, numbers: seq<SnailNumber>, max: nat) {
    forall p, q :: 0 <= p < |numbers| && 0 <= q < |numbers| && numbers[p] != numbers[q] ==>
      add(numbers[p], numbers[q]).Done? && add(numbers[p], numbers[q]).number.Magnitude() <= max
  }

  /** Some pair of different numbers adds up to a magnitude of exactly `max`. */
  predicate Attained(add: (SnailNumber, SnailNumber) -> Outcome, numbers: seq<SnailNumber>, max: nat) {
    exists p, q :: 0 <= p < |numbers| && 0 <= q < |numbers| && numbers[p] != numbers[q] &&
      add(numbers[p], numbers[q]).Done? && add(numbers[p], numbers[q]).number.Magnitude() == max
  }

  /** Both sums of `x` and `y` finish, with magnitudes at most `max`. */
  predicate PairWithin(add: (SnailNumber, SnailNumber) -> Outcome, x: SnailNumber, y: SnailNumber, max: nat) {
    add(x, y).Done? && add(x, y).number.Magnitude() <= max &&
    add(y, x).Done? && add(y, x).number.Magnitude() <= max
  }

  /** The double loop of `part2`: the largest magnitude of `x + y` and `y + x` over all pairs of different numbers, starting from 0. */
  method MaxPairMagnitude(add: (SnailNumber, SnailNumber) -> Outcome, numbers: seq<SnailNumber>) returns (r: Option<nat>)
    ensures r.Some? <==> AllPairsDone(add, numbers)
    ensures r.Some? ==> AllPairsWithin(add, numbers, r.value)
    ensures r.Some? ==> r.value == 0 || Attained(add, numbers, r.value)
  {
    var max: nat := 0;
    var i := 0;
    while i < |numbers|
      invariant 0 <= i <= |numbers|
      invariant forall p, q :: 0 <= p < i && 0 <= q < |numbers| && numbers[p] != numbers[q] ==>
        PairWithin(add, numbers[p], numbers[q], max)
      invariant max == 0 || Attained(add, numbers, max)
    {
      var j := 0;
      while j < |numbers|
        invariant 0 <= j <= |numbers|
        invariant forall p, q :: (0 <= p < i || (p == i && 0 <= q < j)) && 0 <= q < |numbers| && numbers[p] != numbers[q] ==>
          PairWithin(add, numbers[p], numbers[q], max)
        invariant max == 0 || Attained(add, numbers, max)
      {
        var x, y := numbers[i], numbers[j];
        if x != y {
          var a := add(x, y);
          var b := add(y, x);
          if !a.Done? || !b.Done? {
            return None;
          }
          var oldMax := max;
          max := Common.Max(Common.Max(max, a.number.Magnitude()), b.number.Magnitude());
          forall p, q | (0 <= p < i || (p == i && 0 <= q < j)) && 0 <= q < |numbers| && numbers[p] != numbers[q]
            ensures PairWithin(add, numbers[p], numbers[q], max)
          {
            assert PairWithin(add, numbers[p], numbers[q], oldMax);
          }
        }
        j := j + 1;
      }
      i := i + 1;
    }
    forall p, q | 0 <= p < |numbers| && 0 <= q < |numbers| && numbers[p] != numbers[q]
      ensures add(numbers[p], numbers[q]).Done? && add(numbers[p], numbers[q]).number.Magnitude() <= max
    {
      assert PairWithin(add, numbers[p], numbers[q], max);
    }
    return Some(max);
  }

  /** Addition with a budget of `fuel` rewrites, as a value for the loops above. */
  function Adder(fuel: nat): (SnailNumber, SnailNumber) -> Outcome {
    (a, b) => Add(a, b, fuel)
  }

  /**
   * `part2`: the largest magnitude of `x + y` over ordered pairs of
   * different numbers, 0 when there are none. `None` where the source
   * panics and where an addition needs more than `fuel` rewrites. The
   * magnitude of a reduced number fits a `u32`.
   */
  method Part2(lines: seq<string>, fuel: nat) returns (r: Option<nat>)
    ensures ParseInput(lines).None? ==> r.None?
    ensures ParseInput(lines).Some? ==> (r.Some? <==> AllPairsDone(Adder(fuel), ParseInput(lines).value))
    ensures r.Some? ==> ParseInput(lines).Some? && AllPairsWithin(Adder(fuel), ParseInput(lines).value, r.value)
    ensures r.Some? ==> r.value == 0 || Attained(Adder(fuel), ParseInput(lines).value, r.value)
    ensures r.Some? ==> r.value <= 5625
  {
    var parsed := ParseInput(lines);
    if parsed.None? {
      return None;
    }
    var numbers := parsed.value;
    r := MaxPairMagnitude(Adder(fuel), numbers);
    if r.Some? && r.value != 0 {
      var p, q :| 0 <= p < |numbers| && 0 <= q < |numbers| && numbers[p] != numbers[q] &&
        Adder(fuel)(numbers[p], numbers[q]).Done? && Adder(fuel)(numbers[p], numbers[q]).number.Magnitude() == r.value;
      MagnitudeReduced(Add(numbers[p], numbers[q], fuel).number);
    }
  }

  // Worked examples from the puzzle text

  function Pair(l: SnailElement, r: SnailElement): SnailElement { Recursion(SnailNumber(l, r)) }
  function Lit(v: nat): SnailElement { Literal(v) }

  /** [[[[[9,8],1],2],3],4] explodes to [[[[0,9],2],3],4] */
  lemma ExplodeExample()
    ensures Explode(SnailNumber(Pair(Pair(Pair(Pair(Lit(9), Lit(8)), Lit(1)), Lit(2)), Lit(3)), Lit(4)))
         == Some(SnailNumber(Pair(Pair(Pair(Lit(0), Lit(9)), Lit(2)), Lit(3)), Lit(4)))
  {
    var d4 := SnailNumber(Pair(Lit(9), Lit(8)), Lit(1));
    assert ExplodeAt(d4, 4) == Break(SnailNumber(Lit(0), Lit(9)), 9, 0);
    var d3 := SnailNumber(Recursion(d4), Lit(2));
    assert ExplodeAt(d3, 3) == Break(SnailNumber(Pair(Lit(0), Lit(9)), Lit(2)), 9, 0);
    var d2 := SnailNumber(Recursion(d3), Lit(3));
    assert ExplodeAt(d2, 2) == Break(SnailNumber(Pair(Pair(Lit(0), Lit(9)), Lit(2)), Lit(3)), 9, 0);
  }

  /** [10,0], [11,0] and [12,0] split to [[5,5],0], [[5,6],0] and [[6,6],0] */
  lemma SplitExample()
    ensures Split(SnailNumber(Lit(10), Lit(0))) == SnailNumber(Pair(Lit(5), Lit(5)), Lit(0))
    ensures Split(SnailNumber(Lit(11), Lit(0))) == SnailNumber(Pair(Lit(5), Lit(6)), Lit(0))
    ensures Split(SnailNumber(Lit(12), Lit(0))) == SnailNumber(Pair(Lit(6), Lit(6)), Lit(0))
  {
  }

  /** The magnitudes of small numbers in the puzzle text */
  lemma MagnitudeExample()
    ensures SnailNumber(Lit(9), Lit(1)).Magnitude() == 29
    ensures SnailNumber(Lit(1), Lit(9)).Magnitude() == 21
    ensures SnailNumber(Pair(Lit(9), Lit(1)), Pair(Lit(1), Lit(9))).Magnitude() == 129
    ensures SnailNumber(Pair(Lit(1), Lit(2)), Pair(Pair(Lit(3), Lit(4)), Lit(5))).Magnitude() == 143
  {
  }

  /** [[[[0,7],4],[[7,8],[6,0]]],[8,1]] has magnitude 1384 */
  lemma MagnitudeReducedExample()
    ensures SnailNumber(Pair(Pair(Pair(Lit(0), Lit(7)), Lit(4)), Pair(Pair(Lit(7), Lit(8)), Pair(Lit(6), Lit(0)))),
                        Pair(Lit(8), Lit(1))).Magnitude() == 1384
  {
  }

  /** The magnitudes of the first three sums of the puzzle text */
  lemma MagnitudeSumExample()
    ensures SnailNumber(Pair(Pair(Pair(Lit(1), Lit(1)), Pair(Lit(2), Lit(2))), Pair(Lit(3), Lit(3))),
                        Pair(Lit(4), Lit(4))).Magnitude() == 445
    ensures SnailNumber(Pair(Pair(Pair(Lit(3), Lit(0)), Pair(Lit(5), Lit(3))), Pair(Lit(4), Lit(4))),
                        Pair(Lit(5), Lit(5))).Magnitude() == 791
    ensures SnailNumber(Pair(Pair(Pair(Lit(5), Lit(0)), Pair(Lit(7), Lit(4))), Pair(Lit(5), Lit(5))),
                        Pair(Lit(6), Lit(6))).Magnitude() == 1137
  {
  }

  /** [[[[8,7],[7,7]],[[8,6],[7,7]]],[[[0,7],[6,6]],[8,7]]] has magnitude 3488 */
  lemma MagnitudeLargeExample()
    ensures SnailNumber(Pair(Pair(Pair(Lit(8), Lit(7)), Pair(Lit(7), Lit(7))), Pair(Pair(Lit(8), Lit(6)), Pair(Lit(7), Lit(7)))),
                        Pair(Pair(Pair(Lit(0), Lit(7)), Pair(Lit(6), Lit(6))), Pair(Lit(8), Lit(7)))).Magnitude() == 3488
  {
  }

  lemma ParseExample()
    ensures FromStr("[[1,9],[8,5]]") == Some(SnailNumber(Pair(Lit(1), Lit(9)), Pair(Lit(8), Lit(5))))
  {
    var n := SnailNumber(Pair(Lit(1), Lit(9)), Pair(Lit(8), Lit(5)));
    assert ShowNat(1) == "1" && ShowNat(9) == "9" && ShowNat(8) == "8" && ShowNat(5) == "5";
    assert ShowElement(Pair(Lit(1), Lit(9))) == "[1,9]";
    assert ShowElement(Pair(Lit(8), Lit(5))) == "[8,5]";
    assert ShowNumber(n) == "[[1,9],[8,5]]";
    FromStrShow(n);
  }
}
