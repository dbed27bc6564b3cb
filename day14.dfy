/** Day 14, Extended Polymerization: instead of the polymer itself the
    solution keeps how often each adjacent pair and each element occur,
    and applies the insertion rules to those counts. A `HashMap` from a
    key to its count is modelled as a multiset of keys. */
module Day14 {
  import opened Common

  type Pair = (char, char)
  type Rules = map<Pair, char>

  // ---------------------------------------------------------------------
  // Reference: the polymer itself

  /** One insertion step on the polymer: between every adjacent pair with
      a rule, its element is inserted. */
  function Insertion(s: string, rules: Rules): (r: string)
    ensures |s| >= 1 ==> |r| >= 1 && r[0] == s[0]
  {
    if |s| < 2 then s
    else [s[0]] + (if (s[0], s[1]) in rules then [rules[(s[0], s[1])]] else []) + Insertion(s[1..], rules)
  }

  function PolymerAfter(s: string, rules: Rules, steps: nat): string
  {
    if steps == 0 then s else Insertion(PolymerAfter(s, rules, steps - 1), rules)
  }

  /** The adjacent pairs of a polymer, `windows(2)`. */
  function Pairs(s: string): multiset<Pair>
  {
    if |s| < 2 then multiset{} else multiset{(s[0], s[1])} + Pairs(s[1..])
  }

  // ---------------------------------------------------------------------
  // The counting step

  /** What one occurrence of pair `p` becomes, and the element it adds. */
  function Image(p: Pair, rules: Rules): (multiset<Pair>, multiset<char>)
  {
    if p in rules then (multiset{(p.0, rules[p]), (rules[p], p.1)}, multiset{rules[p]})
    else (multiset{p}, multiset{})
  }

  /** The new pair counts and the inserted elements for all the pair
      occurrences in `ps`. */
  ghost function Grow(ps: multiset<Pair>, rules: Rules): (multiset<Pair>, multiset<char>)
    decreases |ps|
  {
    if |ps| == 0 then (multiset{}, multiset{})
    else
      var p := Pick(ps);
      var rest := Grow(ps - multiset{p}, rules);
      (Image(p, rules).0 + rest.0, Image(p, rules).1 + rest.1)
  }

  /** `Grow` does not depend on the occurrence it takes first. */
  lemma {:induction false} GrowAny(ps: multiset<Pair>, q: Pair, rules: Rules)
    requires q in ps
    ensures Grow(ps, rules).0 == Image(q, rules).0 + Grow(ps - multiset{q}, rules).0
    ensures Grow(ps, rules).1 == Image(q, rules).1 + Grow(ps - multiset{q}, rules).1
    decreases |ps|
  {
    var p := Pick(ps);
    if p != q {
      var a, b := ps - multiset{p}, ps - multiset{q};
      GrowAny(a, q, rules);
      GrowAny(b, p, rules);
      RemoveSwap(ps, p, q);
      var rest := Grow(a - multiset{q}, rules);
      SwapUnion(Image(p, rules).0, Image(q, rules).0, rest.0);
      SwapUnion(Image(p, rules).1, Image(q, rules).1, rest.1);
    }
  }

  lemma {:induction false} GrowAdditive(a: multiset<Pair>, b: multiset<Pair>, rules: Rules)
    ensures Grow(a + b, rules).0 == Grow(a, rules).0 + Grow(b, rules).0
    ensures Grow(a + b, rules).1 == Grow(a, rules).1 + Grow(b, rules).1
    decreases |a|
  {
    if |a| > 0 {
      var p := Pick(a);
      GrowAny(a + b, p, rules);
      GrowAny(a, p, rules);
      RemoveUnion(a, b, p);
      GrowAdditive(a - multiset{p}, b, rules);
      UnionAssoc(Image(p, rules).0, Grow(a - multiset{p}, rules).0, Grow(b, rules).0);
      UnionAssoc(Image(p, rules).1, Grow(a - multiset{p}, rules).1, Grow(b, rules).1);
    } else {
      assert a + b == b;
    }
  }

  lemma GrowSingle(p: Pair, rules: Rules)
    ensures Grow(multiset{p}, rules) == Image(p, rules)
  {
    GrowAny(multiset{p}, p, rules);
    assert multiset{p} - multiset{p} == multiset{};
    assert Grow(multiset{}, rules) == (multiset{}, multiset{});
    assert Image(p, rules).0 + multiset{} == Image(p, rules).0;
    assert Image(p, rules).1 + multiset{} == Image(p, rules).1;
  }

  /** The counts follow the polymer: the pair counts of the next polymer
      are `Grow` of the current pair counts, and the element counts grow
      by the inserted elements. */
  lemma {:induction false} InsertionCounts(s: string, rules: Rules)
    ensures Pairs(Insertion(s, rules)) == Grow(Pairs(s), rules).0
    ensures multiset(Insertion(s, rules)) == multiset(s) + Grow(Pairs(s), rules).1
  {
    if |s| < 2 {
      assert Pairs(s) == multiset{};
      assert Grow(multiset{}, rules) == (multiset{}, multiset{});
    } else {
      var a, t := s[0], s[1..];
      assert s == [a] + t;
      InsertionCounts(t, rules);
      GrowAdditive(multiset{(a, t[0])}, Pairs(t), rules);
      GrowSingle((a, t[0]), rules);
      InsertionConsPairs(a, t, rules);
      InsertionConsChars(a, t, rules);
      Swap4(multiset([a]), Image((a, t[0]), rules).1, multiset(t), Grow(Pairs(t), rules).1);
    }
  }

  /** The ghost step of `apply_mapping`'s loop: moving all occurrences of
      `key` from the pairs still to visit to the pairs already visited
      keeps the totals. */
  lemma GrowStep(total: multiset<Pair>, inserted: multiset<char>, next: multiset<Pair>, counts: multiset<char>,
                 rest: multiset<Pair>, key: Pair, rules: Rules)
    requires key in rest
    requires total == next + Grow(rest, rules).0
    requires inserted == counts + Grow(rest, rules).1
    ensures total == (next + Repeat(Image(key, rules).0, rest[key])) + Grow(rest[key := 0], rules).0
    ensures inserted == (counts + Repeat(Image(key, rules).1, rest[key])) + Grow(rest[key := 0], rules).1
  {
    GrowChunk(rest, key, rules);
    Regroup(total, next, Repeat(Image(key, rules).0, rest[key]), Grow(rest, rules).0, Grow(rest[key := 0], rules).0);
    Regroup(inserted, counts, Repeat(Image(key, rules).1, rest[key]), Grow(rest, rules).1, Grow(rest[key := 0], rules).1);
  }

  lemma Regroup<T>(total: multiset<T>, done: multiset<T>, step: multiset<T>, todo: multiset<T>, todo1: multiset<T>)
    requires total == done + todo && todo == step + todo1
    ensures total == (done + step) + todo1
  {
  }

  lemma Swap4<T>(a: multiset<T>, b: multiset<T>, c: multiset<T>, d: multiset<T>)
    ensures a + b + (c + d) == (a + c) + (b + d)
  {
  }

  /** The element inserted between `a` and `b`, if any. */
  function Inserted(a: char, b: char, rules: Rules): (r: string)
    ensures multiset(r) == Image((a, b), rules).1
  {
    if (a, b) in rules then [rules[(a, b)]] else []
  }

  lemma InsertionUnfold(a: char, t: string, rules: Rules)
    requires |t| >= 1
    ensures Insertion([a] + t, rules) == [a] + Inserted(a, t[0], rules) + Insertion(t, rules)
  {
    var s := [a] + t;
    assert s[0] == a && s[1] == t[0] && s[1..] == t;
  }

  /** One step of `InsertionCounts` on the pairs: the first pair of
      `[a] + t` becomes its image. */
  lemma InsertionConsPairs(a: char, t: string, rules: Rules)
    requires |t| >= 1
    ensures Pairs(Insertion([a] + t, rules)) == Image((a, t[0]), rules).0 + Pairs(Insertion(t, rules))
  {
    InsertionUnfold(a, t, rules);
    var rt := Insertion(t, rules);
    if (a, t[0]) in rules {
      var c := rules[(a, t[0])];
      assert Inserted(a, t[0], rules) == [c];
      PairsInsert(a, c, rt);
    } else {
      assert [a] + Inserted(a, t[0], rules) + rt == [a] + rt;
      PairsCons(a, rt);
    }
  }

  lemma PairsInsert(a: char, c: char, r: string)
    requires |r| >= 1
    ensures Pairs([a] + [c] + r) == multiset{(a, c), (c, r[0])} + Pairs(r)
  {
    var cr := [c] + r;
    PairsCons(c, r);
    PairsCons(a, cr);
    assert [a] + [c] + r == [a] + cr;
    assert cr[0] == c;
  }

  /** One step of `InsertionCounts` on the elements. */
  lemma InsertionConsChars(a: char, t: string, rules: Rules)
    requires |t| >= 1
    ensures multiset(Insertion([a] + t, rules)) == multiset([a]) + Image((a, t[0]), rules).1 + multiset(Insertion(t, rules))
  {
    InsertionUnfold(a, t, rules);
  }

  lemma PairsCons(x: char, r: string)
    requires |r| >= 1
    ensures Pairs([x] + r) == multiset{(x, r[0])} + Pairs(r)
  {
    assert ([x] + r)[1..] == r;
  }

  /** Invariant of the counts: one element more than pairs. */
  lemma {:induction false} PairsCount(s: string)
    ensures |s| >= 1 ==> |multiset(s)| == |Pairs(s)| + 1
  {
    if |s| >= 2 {
      PairsCount(s[1..]);
      assert s == [s[0]] + s[1..];
    }
  }

  /** The body of `apply_mapping`'s loop: the `count` occurrences of
      `key` move to the pairs of its image, and the inserted element gains
      `count`. */
  method Transfer(next: multiset<Pair>, counts: multiset<char>, key: Pair, count: nat, rules: Rules)
    returns (next': multiset<Pair>, counts': multiset<char>)
    ensures next' == next + Repeat(Image(key, rules).0, count)
    ensures counts' == counts + Repeat(Image(key, rules).1, count)
  {
    if key in rules {
      var insert := rules[key];
      counts' := counts[insert := counts[insert] + count];
      var left, right := (key.0, insert), (insert, key.1);
      var mid := next[left := next[left] + count];
      next' := mid[right := mid[right] + count];
      AddCount(counts, insert, count);
      AddTwo(next, left, right, count);
      assert Image(key, rules).0 == multiset{left, right};
    } else {
      next' := next[key := next[key] + count];
      counts' := counts;
      AddCount(next, key, count);
      RepeatEmpty(Image(key, rules).1, count);
    }
  }

  /** Adding `count` to the counts of `left` and then of `right` adds `count` copies of both. */
  lemma AddTwo(next: multiset<Pair>, left: Pair, right: Pair, count: nat)
    ensures var mid := next[left := next[left] + count];
      mid[right := mid[right] + count] == next + Repeat(multiset{left, right}, count)
  {
    var mid := next[left := next[left] + count];
    AddCount(next, left, count);
    AddCount(mid, right, count);
    UnionAssoc(next, Repeat(multiset{left}, count), Repeat(multiset{right}, count));
    RepeatUnion(multiset{left}, multiset{right}, count);
    assert multiset{left, right} == multiset{left} + multiset{right};
  }

  // ---------------------------------------------------------------------
  // The state of `both`

  class Polymer {
    var pairs: multiset<Pair>
    var charCounts: multiset<char>
    const mappings: Rules

    /** The counts describe the polymer `s`. */
    ghost predicate Describes(s: string)
      reads this
    {
      pairs == Pairs(s) && charCounts == multiset(s)
    }

    /** `parse_input`'s counting folds over the template. */
    constructor (template: string, rules: Rules)
      ensures mappings == rules && Describes(template)
    {
      mappings := rules;
      charCounts := multiset(template);
      var ps: multiset<Pair> := multiset{};
      var i := 0;
      while i + 1 < |template|
        invariant 0 <= i <= |template|
        invariant i + 1 <= |template| || |template| == 0
        invariant ps + Pairs(template[i..]) == Pairs(template)
      {
        assert template[i..][1..] == template[i + 1..];
        ps := ps[(template[i], template[i + 1]) := ps[(template[i], template[i + 1])] + 1];
        i := i + 1;
      }
      pairs := ps;
    }

    /** `apply_mapping`: every distinct pair is visited once; a pair with
        a rule adds its count to the two new pairs and to the inserted
        element, any other pair keeps its count. */
    method ApplyMapping()
      modifies this
      ensures pairs == Grow(old(pairs), mappings).0
      ensures charCounts == old(charCounts) + Grow(old(pairs), mappings).1
    {
      var next: multiset<Pair> := multiset{};
      var current := pairs;
      // the entries of `current` not visited yet
      var rest := current;
      while rest != multiset{}
        invariant Grow(current, mappings).0 == next + Grow(rest, mappings).0
        invariant old(charCounts) + Grow(current, mappings).1 == charCounts + Grow(rest, mappings).1
        decreases |rest|
      {
        var key :| key in rest;
        var count := rest[key];
        GrowStep(Grow(current, mappings).0, old(charCounts) + Grow(current, mappings).1, next, charCounts, rest, key, mappings);
        next, charCounts := Transfer(next, charCounts, key, count, mappings);
        rest := rest[key := 0];
      }
      assert Grow(multiset{}, mappings) == (multiset{}, multiset{});
      pairs := next;
    }

    /** `both`: `iterations` steps, then the largest element count minus
        the smallest. */
    method Both(ghost template: string, iterations: nat) returns (r: nat)
      requires Describes(template) && |template| >= 1
      modifies this
      ensures Describes(PolymerAfter(template, mappings, iterations))
      ensures exists lo: int, hi: int :: IsMinCount(charCounts, lo) && IsMaxCount(charCounts, hi) && r == hi - lo
    {
      var i := 0;
      while i < iterations
        invariant 0 <= i <= iterations
        invariant Describes(PolymerAfter(template, mappings, i))
      {
        InsertionCounts(PolymerAfter(template, mappings, i), mappings);
        ApplyMapping();
        i := i + 1;
      }
      assert template[0] in multiset(template);
      LengthGrows(template, mappings, iterations);
      var lo, hi := MinMaxCount(charCounts);
      r := hi - lo;
      assert IsMinCount(charCounts, lo as int) && IsMaxCount(charCounts, hi as int);
    }
  }

  lemma {:induction false} LengthGrows(s: string, rules: Rules, steps: nat)
    requires |s| >= 1
    ensures |PolymerAfter(s, rules, steps)| >= 1
  {
    if steps > 0 {
      LengthGrows(s, rules, steps - 1);
    }
  }

  /** Adding `count` to one key is adding `count` copies of it. */
  lemma RepeatGrow(key: Pair, count: nat, rules: Rules)
    ensures Grow(multiset{}[key := count], rules).0 == Repeat(Image(key, rules).0, count)
    ensures Grow(multiset{}[key := count], rules).1 == Repeat(Image(key, rules).1, count)
    decreases count
  {
    if count > 0 {
      var m := multiset{}[key := count];
      assert m == multiset{}[key := count - 1] + multiset{key};
      GrowAdditive(multiset{}[key := count - 1], multiset{key}, rules);
      GrowSingle(key, rules);
      RepeatGrow(key, count - 1, rules);
    }
  }

  function Repeat<T>(m: multiset<T>, n: nat): multiset<T>
  {
    if n == 0 then multiset{} else Repeat(m, n - 1) + m
  }

  lemma {:induction false} RepeatSingle<T>(x: T, n: nat)
    ensures Repeat(multiset{x}, n) == multiset{}[x := n]
  {
    if n > 0 {
      RepeatSingle(x, n - 1);
    }
  }

  lemma {:induction false} RepeatEmpty<T>(e: multiset<T>, n: nat)
    requires e == multiset{}
    ensures Repeat(e, n) == multiset{}
  {
    if n > 0 {
      RepeatEmpty(e, n - 1);
    }
  }

  lemma {:induction false} RepeatUnion<T>(a: multiset<T>, b: multiset<T>, n: nat)
    ensures Repeat(a + b, n) == Repeat(a, n) + Repeat(b, n)
  {
    if n > 0 {
      RepeatUnion(a, b, n - 1);
    }
  }

  /** Adding `n` to the count of `x` is adding `n` copies of it. */
  lemma AddCount<T>(m: multiset<T>, x: T, n: nat)
    ensures m[x := m[x] + n] == m + Repeat(multiset{x}, n)
  {
    RepeatSingle(x, n);
  }

  /** All `rest[key]` occurrences of `key` grow together. */
  lemma GrowChunk(rest: multiset<Pair>, key: Pair, rules: Rules)
    requires key in rest
    ensures Grow(rest, rules).0 == Repeat(Image(key, rules).0, rest[key]) + Grow(rest[key := 0], rules).0
    ensures Grow(rest, rules).1 == Repeat(Image(key, rules).1, rest[key]) + Grow(rest[key := 0], rules).1
  {
    var chunk := multiset{}[key := rest[key]];
    assert rest == chunk + rest[key := 0];
    GrowAdditive(chunk, rest[key := 0], rules);
    RepeatGrow(key, rest[key], rules);
  }

  /** `lo` is the smallest count of an element of `counts`. */
  ghost predicate IsMinCount(counts: multiset<char>, lo: int)
  {
    (exists c :: c in counts && lo == counts[c]) && forall c :: c in counts ==> lo <= counts[c]
  }

  /** `hi` is the largest count of an element of `counts`. */
  ghost predicate IsMaxCount(counts: multiset<char>, hi: int)
  {
    (exists c :: c in counts && hi == counts[c]) && forall c :: c in counts ==> counts[c] <= hi
  }

  /** `values().min()` and `values().max()` of the element counts. */
  method MinMaxCount(counts: multiset<char>) returns (lo: nat, hi: nat)
    requires |counts| > 0
    ensures IsMinCount(counts, lo) && IsMaxCount(counts, hi)
    ensures lo <= hi
  {
    var keys := set c | c in counts;
    assert Pick(counts) in keys;
    var first :| first in keys;
    lo, hi := counts[first], counts[first];
    keys := keys - {first};
    while keys != {}
      invariant forall c :: c in keys ==> c in counts
      invariant exists c :: c in counts && lo == counts[c]
      invariant exists c :: c in counts && hi == counts[c]
      invariant forall c :: c in counts && c !in keys ==> lo <= counts[c] <= hi
      decreases |keys|
    {
      var c :| c in keys;
      lo := Min(lo, counts[c]);
      hi := Max(hi, counts[c]);
      keys := keys - {c};
    }
  }

  // ---------------------------------------------------------------------
  // Parsing

  /** A rule line `AB -> C`; lines without " -> " are skipped by the
      source, and a pattern shorter than two characters or an empty
      insertion panics. */
  function ParseRule(line: string): (r: Option<Option<(Pair, char)>>)
    ensures r == Some(None) <==> SplitOnce(line, " -> ").None?
    ensures SplitOnce(line, " -> ").Some? ==>
      var pat, ins := SplitOnce(line, " -> ").value.0, SplitOnce(line, " -> ").value.1;
      (r.Some? <==> |pat| >= 2 && |ins| >= 1) &&
      (r.Some? ==> r.value == Some(((pat[0], pat[1]), ins[0])))
  {
    match SplitOnce(line, " -> ")
    case None => Some(None)
    case Some((pat, ins)) =>
      if |pat| < 2 || |ins| < 1 then None else Some(Some(((pat[0], pat[1]), ins[0])))
  }

  /** A parsed line that is a rule for the pair `p`. */
  predicate Names(rule: Option<Option<(Pair, char)>>, p: Pair) {
    rule.Some? && rule.value.Some? && rule.value.value.0 == p
  }

  /** Line `i` is a rule and no later line is a rule for the same pair, so its insertion wins. */
  predicate Latest(parsed: seq<Option<Option<(Pair, char)>>>, i: int) {
    0 <= i < |parsed| && parsed[i].Some? && parsed[i].value.Some? &&
    forall j :: i < j < |parsed| ==> !Names(parsed[j], parsed[i].value.value.0)
  }

  /** What `collect()` makes of the parsed lines: a key for exactly the
      pairs some line has a rule for, holding the insertion of the last
      such line. */
  ghost predicate Collected(parsed: seq<Option<Option<(Pair, char)>>>, m: Rules) {
    (forall p :: p in m <==> exists i :: 0 <= i < |parsed| && Names(parsed[i], p)) &&
    (forall i :: Latest(parsed, i) ==> parsed[i].value.value.0 in m && m[parsed[i].value.value.0] == parsed[i].value.value.1)
  }

  /** The parsed lines of the rule section, line by line. */
  function ParsedRules(lines: seq<string>): (r: seq<Option<Option<(Pair, char)>>>)
    ensures |r| == |lines| && forall i :: 0 <= i < |lines| ==> r[i] == ParseRule(lines[i])
  {
    seq(|lines|, i requires 0 <= i < |lines| => ParseRule(lines[i]))
  }

  /** `collect()` into a `HashMap`: a later rule for the same pair
      replaces an earlier one; any malformed rule makes the whole parse
      fail. */
  function ParseRules(lines: seq<string>): (r: Option<Rules>)
    ensures r.Some? <==> forall i :: 0 <= i < |lines| ==> ParseRule(lines[i]).Some?
    ensures r.Some? ==> Collected(ParsedRules(lines), r.value)
  {
    CollectRules(ParsedRules(lines))
  }

  /** The map built from the parsed lines, in order: each rule line
      writes its pair's entry, so the last rule for a pair wins. */
  function CollectRules(parsed: seq<Option<Option<(Pair, char)>>>): (r: Option<Rules>)
    ensures r.Some? <==> forall i :: 0 <= i < |parsed| ==> parsed[i].Some?
    ensures r.Some? ==> Collected(parsed, r.value)
  {
    if parsed == [] then Some(map[])
    else
      var init := parsed[..|parsed| - 1];
      var last := parsed[|parsed| - 1];
      assert forall i :: 0 <= i < |init| ==> init[i] == parsed[i];
      var before := CollectRules(init);
      if before.None? || last.None? then None
      else if last.value.None? then
        CollectSkip(parsed, before.value);
        before
      else
        CollectWrite(parsed, before.value);
        Some(before.value[last.value.value.0 := last.value.value.1])
  }

  /** A last line without a rule leaves the collected map as it was. */
  lemma CollectSkip(parsed: seq<Option<Option<(Pair, char)>>>, m: Rules)
    requires parsed != [] && parsed[|parsed| - 1] == Some(None)
    requires Collected(parsed[..|parsed| - 1], m)
    ensures Collected(parsed, m)
  {
    var init := parsed[..|parsed| - 1];
    forall p ensures p in m <==> exists i :: 0 <= i < |parsed| && Names(parsed[i], p) {
      if exists i :: 0 <= i < |parsed| && Names(parsed[i], p) {
        var i :| 0 <= i < |parsed| && Names(parsed[i], p);
        assert init[i] == parsed[i];
      }
      if p in m {
        var i :| 0 <= i < |init| && Names(init[i], p);
        assert parsed[i] == init[i];
      }
    }
    forall i | Latest(parsed, i)
      ensures parsed[i].value.value.0 in m && m[parsed[i].value.value.0] == parsed[i].value.value.1
    {
      assert init[i] == parsed[i];
      assert Latest(init, i);
    }
  }

  /** A last line with a rule for `p` writes `p`'s entry, which it then holds. */
  lemma CollectWrite(parsed: seq<Option<Option<(Pair, char)>>>, m: Rules)
    requires parsed != [] && parsed[|parsed| - 1].Some? && parsed[|parsed| - 1].value.Some?
    requires Collected(parsed[..|parsed| - 1], m)
    ensures Collected(parsed, m[parsed[|parsed| - 1].value.value.0 := parsed[|parsed| - 1].value.value.1])
  {
    var init := parsed[..|parsed| - 1];
    var last := |parsed| - 1;
    var (q, c) := parsed[last].value.value;
    var m' := m[q := c];
    forall p ensures p in m' <==> exists i :: 0 <= i < |parsed| && Names(parsed[i], p) {
      if exists i :: 0 <= i < |parsed| && Names(parsed[i], p) {
        var i :| 0 <= i < |parsed| && Names(parsed[i], p);
        if i < last {
          assert init[i] == parsed[i];
        }
      }
      if p in m' {
        if p == q {
          assert Names(parsed[last], p);
        } else {
          var i :| 0 <= i < |init| && Names(init[i], p);
          assert parsed[i] == init[i];
        }
      }
    }
    forall i | Latest(parsed, i)
      ensures parsed[i].value.value.0 in m' && m'[parsed[i].value.value.0] == parsed[i].value.value.1
    {
      if i < last {
        assert init[i] == parsed[i];
        assert !Names(parsed[last], parsed[i].value.value.0);
        assert Latest(init, i);
      }
    }
  }

  /** `parse_input`: the template on the first line, the line after it
      skipped, then the rules. An empty input panics. */
  function ParseInput(lines: seq<string>): (r: Option<(string, Rules)>)
    ensures r.Some? <==> |lines| >= 1 && (|lines| < 2 || ParseRules(lines[2..]).Some?)
    ensures r.Some? ==> r.value.0 == lines[0]
    ensures r.Some? ==> r.value.1 == (if |lines| < 2 then map[] else ParseRules(lines[2..]).value)
  {
    if |lines| == 0 then None
    else
      match ParseRules(if |lines| < 2 then [] else lines[2..])
      case None => None
      case Some(m) => Some((lines[0], m))
  }

  // ---------------------------------------------------------------------
  // part1 and part2

  /** The answer of `both` for the input `lines` after `iterations` steps:
      `None` where the source panics (no line at all, a bad rule, or an
      empty template whose counts have no `min()`), otherwise the largest
      minus the smallest element count of the polymer after that many
      insertion steps. */
  ghost predicate Answer(lines: seq<string>, iterations: nat, r: Option<nat>) {
    (r.Some? <==> ParseInput(lines).Some? && |ParseInput(lines).value.0| >= 1) &&
    (r.Some? ==>
      var counts := multiset(PolymerAfter(ParseInput(lines).value.0, ParseInput(lines).value.1, iterations));
      exists lo: int, hi: int :: IsMinCount(counts, lo) && IsMaxCount(counts, hi) && r.value == hi - lo)
  }

  /** `both`: parse, count, step `iterations` times, compare the counts. */
  method BothOf(lines: seq<string>, iterations: nat) returns (r: Option<nat>)
    ensures Answer(lines, iterations, r)
  {
    var input := ParseInput(lines);
    if input.None? || |input.value.0| == 0 {
      return None;
    }
    var polymer := new Polymer(input.value.0, input.value.1);
    var d := polymer.Both(input.value.0, iterations);
    r := Some(d);
  }

  /** `part1`: ten steps. */
  method Part1(lines: seq<string>) returns (r: Option<nat>)
    ensures Answer(lines, 10, r)
  {
    r := BothOf(lines, 10);
  }

  /** `part2`: forty steps. */
  method Part2(lines: seq<string>) returns (r: Option<nat>)
    ensures Answer(lines, 40, r)
  {
    r := BothOf(lines, 40);
  }
}
