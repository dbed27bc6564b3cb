/** Day 21, Dirac Dice: two pawns on a circular track of ten spaces. Part 1
    plays with a deterministic hundred-sided die; part 2 counts, over all
    universes split by a three-sided die, the wins of each player, with a
    memo cache of already counted positions. */
module Day21 {
  import opened Common

  /** `Player`: its number, its space on the track and its score. */
  datatype Player = Player(name: nat, position: nat, points: nat)

  /** `advance_by`: the pawn moves `roll` spaces around the track of
      spaces 1..=10 and scores the space it lands on. */
  function Advance(p: Player, roll: nat): (q: Player)
    requires p.position + roll >= 1
    ensures 1 <= q.position <= 10
    ensures q.position % 10 == (p.position + roll) % 10
    ensures q.points == p.points + q.position
    ensures q.name == p.name
  {
    var position := (p.position + roll - 1) % 10 + 1;
    p.(position := position, points := p.points + position)
  }

  // ---------------------------------------------------------------------
  // Part 1: the deterministic die

  /** The die after `d`: `(1..=100).cycle()`. */
  function NextFace(d: nat): (r: nat)
    requires 1 <= d <= 100
    ensures 1 <= r <= 100
  {
    if d == 100 then 1 else d + 1
  }

  /** The face of roll number `k` (counted from 0). */
  function Face(k: nat): (r: nat)
    ensures 1 <= r <= 100
  {
    k % 100 + 1
  }

  /** The sum of the three rolls after `rolls` earlier ones. */
  function ThreeRolls(rolls: nat): nat
  {
    Face(rolls) + Face(rolls + 1) + Face(rolls + 2)
  }

  lemma NextFaceIsFace(k: nat)
    ensures NextFace(Face(k)) == Face(k + 1)
  {
  }

  /** How a game of part 1 ends: the player who reached 1000, the other
      one, and the number of rolls. */
  datatype Ending = Ending(winner: Player, loser: Player, rolls: nat)

  predicate OnBoard(p: Player) {
    p.position <= 10 && p.points < 1000
  }

  /** Reference game: `mover` takes the next three rolls; the game ends as
      soon as a score reaches 1000, otherwise the other player moves. */
  function Play(mover: Player, other: Player, rolls: nat): (e: Ending)
    requires OnBoard(mover) && OnBoard(other)
    ensures e.winner.points >= 1000 && e.loser.points < 1000
    ensures e.rolls > rolls && (e.rolls - rolls) % 3 == 0
    decreases 2000 - mover.points - other.points
  {
    var m := Advance(mover, ThreeRolls(rolls));
    if m.points >= 1000 then Ending(m, other, rolls + 3)
    else Play(other, m, rolls + 3)
  }

  /** `(&mut dice).take(3).sum()`: the die shows the face of roll number
      `rolls`; the sum is that of the next three rolls, after which the die
      shows the face of roll `rolls + 3`. */
  method TakeThree(die: nat, ghost rolls: nat) returns (sum: nat, die': nat)
    requires die == Face(rolls)
    ensures sum == ThreeRolls(rolls) && die' == Face(rolls + 3)
  {
    sum := 0;
    die' := die;
    for t := 0 to 3
      invariant die' == Face(rolls + t)
      invariant sum == PartialRolls(rolls, t)
    {
      NextFaceIsFace(rolls + t);
      sum := sum + die';
      die' := NextFace(die');
    }
  }

  /** The first `t` of three rolls after `rolls` earlier ones, summed. */
  function PartialRolls(rolls: nat, t: nat): nat
    decreases t
  {
    if t == 0 then 0 else PartialRolls(rolls, t - 1) + Face(rolls + t - 1)
  }

  /** `part1`: the players move in turn until one reaches 1000; the result
      is the lower score times the number of rolls, as in the reference
      game, and that lower score is the loser's. */
  method Part1(a0: Player, b0: Player) returns (r: nat)
    requires a0.position <= 10 && b0.position <= 10 && a0.points == 0 && b0.points == 0
    ensures var e := Play(a0, b0, 0); r == e.loser.points * e.rolls
  {
    var die := 1;
    var a, b := a0, b0;
    var rolls := 0;
    while true
      invariant OnBoard(a) && OnBoard(b) && die == Face(rolls)
      invariant Play(a, b, rolls) == Play(a0, b0, 0)
      decreases 2000 - a.points - b.points
    {
      var roll;
      roll, die := TakeThree(die, rolls);
      assert Play(a, b, rolls) == (var m := Advance(a, roll); if m.points >= 1000 then Ending(m, b, rolls + 3) else Play(b, m, rolls + 3));
      a := Advance(a, roll);
      rolls := rolls + 3;
      if a.points >= 1000 {
        r := Min(a.points, b.points) * rolls;
        return;
      }
      roll, die := TakeThree(die, rolls);
      assert Play(b, a, rolls) == (var m := Advance(b, roll); if m.points >= 1000 then Ending(m, a, rolls + 3) else Play(a, m, rolls + 3));
      b := Advance(b, roll);
      rolls := rolls + 3;
      if b.points >= 1000 {
        r := Min(a.points, b.points) * rolls;
        return;
      }
    }
  }

  // ---------------------------------------------------------------------
  // Part 2: the Dirac die

  /** Neither score has reached 21 yet. */
  predicate InPlay(p: Player) {
    p.position <= 10 && p.points < 21
  }

  /** The three rolls of the `k`-th pass of the loops over `d1`, `d2`,
      `d3` in `1..=3`, summed. */
  function TripleSum(k: nat): (r: nat)
    requires k < 27
    ensures 3 <= r <= 9
  {
    (k / 9 + 1) + (k / 3 % 3 + 1) + (k % 3 + 1)
  }

  function AddPair(x: (nat, nat), y: (nat, nat)): (nat, nat) {
    (x.0 + y.0, x.1 + y.1)
  }

  /** Reference count, without a cache: in how many universes each player
      wins when `a` moves next. */
  function Wins(a: Player, b: Player): (r: (nat, nat))
    requires InPlay(a) && InPlay(b)
    ensures r.0 + r.1 >= 1
    decreases 42 - a.points - b.points, 1, 0
  {
    WinsFrom(a, b, 27)
  }

  /** The wins over the first `n` roll triples. */
  function WinsFrom(a: Player, b: Player, n: nat): (r: (nat, nat))
    requires InPlay(a) && InPlay(b) && n <= 27
    ensures n > 0 ==> r.0 + r.1 >= 1
    decreases 42 - a.points - b.points, 0, n
  {
    if n == 0 then (0, 0) else AddPair(WinsFrom(a, b, n - 1), Outcome(a, b, n - 1))
  }

  /** One roll triple: `a` wins outright at 21, otherwise the universes
      of the game where `b` moves next, with the counts swapped back. */
  function Outcome(a: Player, b: Player, k: nat): (r: (nat, nat))
    requires InPlay(a) && InPlay(b) && k < 27
    ensures r.0 + r.1 >= 1
    decreases 42 - a.points - b.points, 0, k
  {
    var a' := Advance(a, TripleSum(k));
    if a'.points >= 21 then (1, 0)
    else
      var (winsB, winsA) := Wins(b, a');
      (winsA, winsB)
  }

  /** A player one point short of 21 wins in every one of the 27
      universes of its next move. */
  lemma {:induction false} ImmediateWin(a: Player, b: Player, n: nat)
    requires InPlay(a) && InPlay(b) && a.points == 20 && n <= 27
    ensures WinsFrom(a, b, n) == (n, 0)
  {
    if n > 0 {
      ImmediateWin(a, b, n - 1);
    }
  }

  /** Every entry of the cache is the uncached count of its position. */
  ghost predicate Faithful(cache: map<(Player, Player), (nat, nat)>) {
    forall key :: key in cache ==> InPlay(key.0) && InPlay(key.1) && cache[key] == Wins(key.0, key.1)
  }

  lemma TripleIndex(d1: nat, d2: nat, d3: nat)
    requires 1 <= d1 <= 3 && 1 <= d2 <= 3 && 1 <= d3 <= 3
    ensures (d1 - 1) * 9 + (d2 - 1) * 3 + (d3 - 1) < 27
    ensures TripleSum((d1 - 1) * 9 + (d2 - 1) * 3 + (d3 - 1)) == d1 + d2 + d3
  {
  }

  /** `split_the_timeline`: the count for `(a, b)`, from the cache when it
      is there, otherwise by the 27 roll triples, then stored. The cache
      stays faithful and only grows, so a cached answer is the uncached
      one. */
  method SplitTheTimeline(a: Player, b: Player, cache: map<(Player, Player), (nat, nat)>)
      returns (wins: (nat, nat), cache': map<(Player, Player), (nat, nat)>)
    requires InPlay(a) && InPlay(b) && Faithful(cache)
    ensures wins == Wins(a, b)
    ensures Faithful(cache') && cache.Keys <= cache'.Keys && (a, b) in cache'
    decreases 42 - a.points - b.points, 2
  {
    if (a, b) in cache {
      return cache[(a, b)], cache;
    }
    wins := (0, 0);
    cache' := cache;
    for d1 := 1 to 4
      invariant wins == WinsFrom(a, b, (d1 - 1) * 9)
      invariant Faithful(cache') && cache.Keys <= cache'.Keys
    {
      for d2 := 1 to 4
        invariant wins == WinsFrom(a, b, (d1 - 1) * 9 + (d2 - 1) * 3)
        invariant Faithful(cache') && cache.Keys <= cache'.Keys
      {
        wins, cache' := ThirdDie(a, b, d1, d2, wins, cache');
      }
    }
    cache' := cache'[(a, b) := wins];
  }

  /** The innermost loop of `split_the_timeline`, over the third die for
      given first two: it adds the universes of those three triples. */
  method ThirdDie(a: Player, b: Player, d1: nat, d2: nat, wins: (nat, nat), cache: map<(Player, Player), (nat, nat)>)
      returns (wins': (nat, nat), cache': map<(Player, Player), (nat, nat)>)
    requires InPlay(a) && InPlay(b) && Faithful(cache)
    requires 1 <= d1 <= 3 && 1 <= d2 <= 3
    requires wins == WinsFrom(a, b, (d1 - 1) * 9 + (d2 - 1) * 3)
    ensures wins' == WinsFrom(a, b, (d1 - 1) * 9 + (d2 - 1) * 3 + 3)
    ensures Faithful(cache') && cache.Keys <= cache'.Keys
    decreases 42 - a.points - b.points, 1
  {
    wins', cache' := wins, cache;
    for d3 := 1 to 4
      invariant wins' == WinsFrom(a, b, (d1 - 1) * 9 + (d2 - 1) * 3 + (d3 - 1))
      invariant Faithful(cache') && cache.Keys <= cache'.Keys
    {
      ghost var k := (d1 - 1) * 9 + (d2 - 1) * 3 + (d3 - 1);
      TripleIndex(d1, d2, d3);
      var outcome;
      outcome, cache' := OneTriple(a, b, d1 + d2 + d3, k, cache');
      assert WinsFrom(a, b, k + 1) == AddPair(WinsFrom(a, b, k), outcome);
      wins' := AddPair(wins', outcome);
    }
  }

  /** The body of the innermost loop of `split_the_timeline`, for the
      roll triple number `k`: its universes, by the cache. */
  method OneTriple(a: Player, b: Player, roll: nat, ghost k: nat, cache: map<(Player, Player), (nat, nat)>)
      returns (outcome: (nat, nat), cache': map<(Player, Player), (nat, nat)>)
    requires InPlay(a) && InPlay(b) && Faithful(cache)
    requires k < 27 && roll == TripleSum(k)
    ensures outcome == Outcome(a, b, k)
    ensures Faithful(cache') && cache.Keys <= cache'.Keys
    decreases 42 - a.points - b.points, 0
  {
    var a' := Advance(a, roll);
    if a'.points >= 21 {
      outcome, cache' := (1, 0), cache;
    } else {
      var w;
      w, cache' := SplitTheTimeline(b, a', cache);
      outcome := (w.1, w.0);
    }
  }

  /** `part2`: the larger of the two win counts, starting from an empty
      cache. */
  method Part2(a: Player, b: Player) returns (r: nat)
    requires InPlay(a) && InPlay(b)
    ensures r == Max(Wins(a, b).0, Wins(a, b).1)
  {
    var wins, _ := SplitTheTimeline(a, b, map[]);
    r := Max(wins.0, wins.1);
  }

  // ---------------------------------------------------------------------
  // Parsing

  /** `str::parse::<u16>`. */
  function ParseU16(s: string): (r: Option<nat>)
    ensures r.Some? ==> r.value < 0x1_0000 && ParseNat(s) == Some(r.value)
    ensures r.None? ==> ParseNat(s).None? || ParseNat(s).value >= 0x1_0000
  {
    match ParseNat(s)
    case Some(n) => if n < 0x1_0000 then Some(n) else None
    case None => None
  }

  /** One line `Player <n> starting position: <p>`: exactly five words,
      the second the player's number and the fifth its starting space;
      the score starts at 0. Anything else panics (`None`). */
  function ParsePlayer(line: string): (r: Option<Player>)
    ensures r.Some? ==> r.value.points == 0
    ensures r.Some? <==> (|SplitN(line, 5, ' ')| == 5
      && ParseU16(SplitN(line, 5, ' ')[1]).Some? && ParseU16(SplitN(line, 5, ' ')[4]).Some?)
    ensures r.Some? ==> (Some(r.value.name) == ParseU16(SplitN(line, 5, ' ')[1])
      && Some(r.value.position) == ParseU16(SplitN(line, 5, ' ')[4]))
  {
    var words := SplitN(line, 5, ' ');
    if |words| != 5 then None
    else
      match (ParseU16(words[1]), ParseU16(words[4]))
      case (Some(name), Some(position)) => Some(Player(name, position, 0))
      case _ => None
  }

  /** `parse_input`: the first two lines are the two players. */
  function ParseInput(lines: seq<string>): (r: Option<(Player, Player)>)
    ensures r.Some? <==> (|lines| >= 2 && ParsePlayer(lines[0]).Some? && ParsePlayer(lines[1]).Some?)
    ensures r.Some? ==> (ParsePlayer(lines[0]) == Some(r.value.0) && ParsePlayer(lines[1]) == Some(r.value.1))
  {
    if |lines| < 2 then None
    else
      match (ParsePlayer(lines[0]), ParsePlayer(lines[1]))
      case (Some(a), Some(b)) => Some((a, b))
      case _ => None
  }
}
