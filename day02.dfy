/** Day 2, Dive!: following a list of submarine commands, first as plain
    moves (part 1) and then with an aim that steers the depth (part 2). */
module Day2 {
  import opened Common

  datatype Direction = Forward | Down | Up

  /** `Direction::from_str`: only the three command words parse. */
  function ParseDirection(s: string): (r: Option<Direction>)
    ensures r == Some(Up) <==> s == "up"
    ensures r == Some(Down) <==> s == "down"
    ensures r == Some(Forward) <==> s == "forward"
    ensures r.None? <==> s !in {"up", "down", "forward"}
  {
    if s == "up" then Some(Up)
    else if s == "down" then Some(Down)
    else if s == "forward" then Some(Forward)
    else None
  }

  datatype Command = Command(dir: Direction, dist: int)

  /** One input line, `<direction> <distance>`; any malformed part is a
      panic of the source, modelled as `None`. */
  function ParseCommand(line: string): (r: Option<Command>)
    ensures r.Some? ==> exists w, d :: line == w + " " + d && ' ' !in w
                          && ParseDirection(w) == Some(r.value.dir) && ParseInt(d) == Some(r.value.dist)
  {
    match SplitOnce(line, " ")
    case None => None
    case Some((w, d)) =>
      match (ParseDirection(w), ParseInt(d))
      case (Some(dir), Some(dist)) =>
        SplitOnceBefore(line, ' ');
        Some(Command(dir, dist))
      case _ => None
  }

  /** The other direction: a direction word, a space and a number always
      parse, to that direction and that distance. */
  lemma ParseCommandParses(w: string, d: string)
    requires ParseDirection(w).Some? && ParseInt(d).Some?
    ensures ParseCommand(w + " " + d) == Some(Command(ParseDirection(w).value, ParseInt(d).value))
  {
    assert ' ' !in w;
    SplitOnceFirst(w, ' ', d);
  }

  /** A command written back as `<direction> <distance>` reads as itself. */
  lemma ParseCommandRoundTrip(c: Command)
    ensures ParseCommand(DirectionWord(c.dir) + " " + ShowInt(c.dist)) == Some(c)
  {
    ParseShowInt(c.dist);
    ParseCommandParses(DirectionWord(c.dir), ShowInt(c.dist));
  }

  function DirectionWord(dir: Direction): (w: string)
    ensures ParseDirection(w) == Some(dir)
  {
    match dir
    case Forward => "forward"
    case Down => "down"
    case Up => "up"
  }

  /** The part 1 fold: `(depth, distance)` after the commands. */
  function Travel(cmds: seq<Command>): (int, int)
  {
    if cmds == [] then (0, 0)
    else
      var (depth, distance) := Travel(cmds[..|cmds| - 1]);
      var c := cmds[|cmds| - 1];
      match c.dir
      case Forward => (depth, distance + c.dist)
      case Down => (depth + c.dist, distance)
      case Up => (depth - c.dist, distance)
  }

  /** The part 2 fold: `(aim, depth, distance)` after the commands. */
  function AimedTravel(cmds: seq<Command>): (int, int, int)
  {
    if cmds == [] then (0, 0, 0)
    else
      var (aim, depth, distance) := AimedTravel(cmds[..|cmds| - 1]);
      var c := cmds[|cmds| - 1];
      match c.dir
      case Forward => (aim, depth + aim * c.dist, distance + c.dist)
      case Down => (aim + c.dist, depth, distance)
      case Up => (aim - c.dist, depth, distance)
  }

  /** Total distance of the commands going in direction `d`. */
  function Total(cmds: seq<Command>, d: Direction): int
  {
    if cmds == [] then 0
    else Total(cmds[..|cmds| - 1], d) + (if cmds[|cmds| - 1].dir == d then cmds[|cmds| - 1].dist else 0)
  }

  /** Part 1 in closed form: depth is everything down minus everything up,
      distance everything forward. */
  lemma {:induction false} TravelTotals(cmds: seq<Command>)
    ensures Travel(cmds) == (Total(cmds, Down) - Total(cmds, Up), Total(cmds, Forward))
  {
    if cmds != [] {
      TravelTotals(cmds[..|cmds| - 1]);
    }
  }

  /** Part 2's aim is part 1's depth and both parts travel the same
      distance forward. */
  lemma {:induction false} AimIsPlainDepth(cmds: seq<Command>)
    ensures AimedTravel(cmds).0 == Travel(cmds).0
    ensures AimedTravel(cmds).2 == Travel(cmds).1
  {
    if cmds != [] {
      AimIsPlainDepth(cmds[..|cmds| - 1]);
    }
  }

  /** Part 2's depth grows by the current aim times every forward move. */
  lemma {:induction false} AimedDepthStep(cmds: seq<Command>, c: Command)
    ensures AimedTravel(cmds + [c]).1
         == AimedTravel(cmds).1 + (if c.dir == Forward then Travel(cmds).0 * c.dist else 0)
  {
    assert (cmds + [c])[..|cmds + [c]| - 1] == cmds;
    AimIsPlainDepth(cmds);
  }

  function Part1(cmds: seq<Command>): (r: int)
    ensures r == (Total(cmds, Down) - Total(cmds, Up)) * Total(cmds, Forward)
  {
    TravelTotals(cmds);
    var (depth, distance) := Travel(cmds);
    depth * distance
  }

  function Part2(cmds: seq<Command>): (r: int)
    ensures r == AimedTravel(cmds).1 * Total(cmds, Forward)
  {
    AimIsPlainDepth(cmds);
    TravelTotals(cmds);
    var (_, depth, distance) := AimedTravel(cmds);
    depth * distance
  }

  /** The example of the puzzle text: 15 * 10 and 60 * 15. */
  lemma Example()
    ensures Part1([Command(Forward, 5), Command(Down, 5), Command(Forward, 8),
                   Command(Up, 3), Command(Down, 8), Command(Forward, 2)]) == 150
    ensures Part2([Command(Forward, 5), Command(Down, 5), Command(Forward, 8),
                   Command(Up, 3), Command(Down, 8), Command(Forward, 2)]) == 900
  {
    var c := [Command(Forward, 5), Command(Down, 5), Command(Forward, 8),
              Command(Up, 3), Command(Down, 8), Command(Forward, 2)];
    assert c[..1] == [Command(Forward, 5)];
    assert Travel(c[..1]) == (0, 5);
    assert AimedTravel(c[..1]) == (0, 0, 5);
    assert c[..2][..1] == c[..1];
    assert Travel(c[..2]) == (5, 5);
    assert AimedTravel(c[..2]) == (5, 0, 5);
    assert c[..3][..2] == c[..2];
    assert Travel(c[..3]) == (5, 13);
    assert AimedTravel(c[..3]) == (5, 40, 13);
    assert c[..4][..3] == c[..3];
    assert Travel(c[..4]) == (2, 13);
    assert AimedTravel(c[..4]) == (2, 40, 13);
    assert c[..5][..4] == c[..4];
    assert Travel(c[..5]) == (10, 13);
    assert AimedTravel(c[..5]) == (10, 40, 13);
    assert c[..6][..5] == c[..5];
    assert Travel(c[..6]) == (10, 15);
    assert AimedTravel(c[..6]) == (10, 60, 15);
    assert c[..6] == c;
  }
}
