/** Day 23, Amphipod: crabs of four kinds sit in four side rooms below a
    hallway and must be sorted into their own rooms. A move takes a crab
    from a room slot to a hallway spot or back; it is valid only along an
    empty path and under the rules about leaving and entering rooms, and
    costs the number of steps times the crab's step cost. A depth-first
    search over the valid moves keeps the cheapest cost of reaching the
    sorted state. */
module Day23 {
  import opened Common

  datatype Crab = Amber | Bronze | Copper | Desert

  /** `dest_room_idx`: the room a crab belongs in. */
  function DestRoom(c: Crab): (r: nat)
    ensures r < 4 && CrabOfRoom(r) == c
  {
    match c
    case Amber => 0
    case Bronze => 1
    case Copper => 2
    case Desert => 3
  }

  /** The kind that belongs in room `r`: the `CRABS` table of
      `possible_moves`. */
  function CrabOfRoom(r: nat): (c: Crab)
    requires r < 4
  {
    [Amber, Bronze, Copper, Desert][r]
  }

  /** Each room belongs to exactly one kind. */
  lemma DestRoomOfCrab(r: nat)
    requires r < 4
    ensures DestRoom(CrabOfRoom(r)) == r
  {
  }

  function Pow10(k: nat): (p: nat)
    ensures p >= 1
  {
    if k == 0 then 1 else 10 * Pow10(k - 1)
  }

  /** `step_cost`: one step of a crab costs ten times as much as one of the
      kind before it. */
  function StepCost(c: Crab): (k: nat)
    ensures k == Pow10(DestRoom(c))
  {
    match c
    case Amber => 1
    case Bronze => 10
    case Copper => 100
    case Desert => 1000
  }

  // ---------------------------------------------------------------------
  // Places and moves

  /** A spot in the hallway: two on each end (index 0 next to the rooms)
      and one between each pair of neighbouring rooms. */
  datatype HallwaySpot = Left(idx: nat) | AB | BC | CD | Right(idx: nat)

  /** The spots `get_spot` can address: the end arrays have two entries. */
  predicate HallInRange(h: HallwaySpot) {
    (h.Left? ==> h.idx < 2) && (h.Right? ==> h.idx < 2)
  }

  /** A slot of a room: the room of kind `kind`, `depth` steps in from the
      door (0 is the top). */
  datatype RoomSpot = RoomSpot(kind: Crab, depth: nat)

  datatype Move = FromRoom(room: RoomSpot, hall: HallwaySpot) | ToRoom(hall: HallwaySpot, room: RoomSpot)

  /** Any place a crab can be. */
  datatype Slot = Hall(spot: HallwaySpot) | Room(place: RoomSpot)

  function Source(m: Move): Slot {
    match m
    case FromRoom(room, _) => Room(room)
    case ToRoom(hall, _) => Hall(hall)
  }

  function Target(m: Move): Slot {
    match m
    case FromRoom(_, hall) => Hall(hall)
    case ToRoom(_, room) => Room(room)
  }

  /** The steps from the top slot of a room to the nearest end spot, or to
      a spot between rooms (the table of `steps`). */
  function BaseDistance(room: Crab, hall: HallwaySpot): nat {
    match (room, hall)
    case (Amber, Left(_)) => 2
    case (Amber, AB) => 2
    case (Bronze, AB) => 2
    case (Bronze, BC) => 2
    case (Copper, BC) => 2
    case (Copper, CD) => 2
    case (Desert, CD) => 2
    case (Desert, Right(_)) => 2
    case (Bronze, Left(_)) => 4
    case (Amber, BC) => 4
    case (Copper, AB) => 4
    case (Bronze, CD) => 4
    case (Desert, BC) => 4
    case (Copper, Right(_)) => 4
    case (Amber, CD) => 6
    case (Copper, Left(_)) => 6
    case (Desert, AB) => 6
    case (Bronze, Right(_)) => 6
    case (Desert, Left(_)) => 8
    case (Amber, Right(_)) => 8
  }

  /** `steps`: the table distance, plus the depth of the room slot, plus
      the index of an end spot. */
  function Steps(m: Move): nat {
    BaseDistance(m.room.kind, m.hall) + m.room.depth + (if m.hall.Left? || m.hall.Right? then m.hall.idx else 0)
  }

  /** Column of a hallway spot in the burrow drawing `#...........#`,
      counted from the left wall. */
  function HallColumn(h: HallwaySpot): nat
    requires HallInRange(h)
  {
    match h
    case Left(i) => 1 - i
    case AB => 3
    case BC => 5
    case CD => 7
    case Right(i) => 9 + i
  }

  /** Column of the door of the room of kind `c`. */
  function RoomColumn(c: Crab): nat {
    2 + 2 * DestRoom(c)
  }

  /** `steps` is the walking distance: along the hallway from the door to
      the spot, plus one step through the door, plus the depth. */
  lemma StepsIsDistance(m: Move)
    requires HallInRange(m.hall)
    ensures Steps(m) == Abs(HallColumn(m.hall) - RoomColumn(m.room.kind)) + 1 + m.room.depth
  {
  }

  /** The room slots above `depth` in the room of `kind`, top first. */
  function SlotsAbove(kind: Crab, depth: nat): (r: seq<Slot>)
    ensures |r| == depth && forall i | 0 <= i < depth :: r[i] == Room(RoomSpot(kind, i))
  {
    seq(depth, i requires 0 <= i < depth => Room(RoomSpot(kind, i)))
  }

  /** The end spots nearer the rooms than `hall`. */
  function EndSpotsBefore(hall: HallwaySpot): seq<Slot> {
    match hall
    case Left(k) => seq(k, i requires 0 <= i < k => Hall(Left(i)))
    case Right(k) => seq(k, i requires 0 <= i < k => Hall(Right(i)))
    case _ => []
  }

  /** The spots between rooms that lie between the door of `room` and
      `hall` (the second table of `passes_through`). */
  function Between(room: Crab, hall: HallwaySpot): seq<Slot> {
    match (room, hall)
    case (Amber, Left(_)) => []
    case (Amber, AB) => []
    case (Bronze, AB) => []
    case (Bronze, BC) => []
    case (Copper, BC) => []
    case (Copper, CD) => []
    case (Desert, CD) => []
    case (Desert, Right(_)) => []
    case (Bronze, Left(_)) => [Hall(AB)]
    case (Amber, BC) => [Hall(AB)]
    case (Copper, AB) => [Hall(BC)]
    case (Bronze, CD) => [Hall(BC)]
    case (Desert, BC) => [Hall(CD)]
    case (Copper, Right(_)) => [Hall(CD)]
    case (Amber, CD) => [Hall(AB), Hall(BC)]
    case (Copper, Left(_)) => [Hall(AB), Hall(BC)]
    case (Desert, AB) => [Hall(BC), Hall(CD)]
    case (Bronze, Right(_)) => [Hall(BC), Hall(CD)]
    case (Desert, Left(_)) => [Hall(AB), Hall(BC), Hall(CD)]
    case (Amber, Right(_)) => [Hall(AB), Hall(BC), Hall(CD)]
  }

  /** `passes_through`: the slots a move crosses, besides its source and
      target. */
  function PassesThrough(m: Move): seq<Slot> {
    SlotsAbove(m.room.kind, m.room.depth) + EndSpotsBefore(m.hall) + Between(m.room.kind, m.hall)
  }

  /** A move crosses exactly the slots above its room slot. */
  lemma PassesRoom(m: Move, p: RoomSpot)
    ensures Room(p) in PassesThrough(m) <==> p.kind == m.room.kind && p.depth < m.room.depth
  {
    if p.kind == m.room.kind && p.depth < m.room.depth {
      assert PassesThrough(m)[p.depth] == Room(p);
    }
  }

  /** A move crosses exactly the hallway spots strictly between the door
      of its room and its hallway spot. */
  lemma PassesHall(m: Move, h: HallwaySpot)
    requires HallInRange(m.hall) && HallInRange(h)
    ensures Hall(h) in PassesThrough(m) <==>
      (RoomColumn(m.room.kind) < HallColumn(h) < HallColumn(m.hall)
       || HallColumn(m.hall) < HallColumn(h) < RoomColumn(m.room.kind))
  {
    var a, e, b := SlotsAbove(m.room.kind, m.room.depth), EndSpotsBefore(m.hall), Between(m.room.kind, m.hall);
    assert PassesThrough(m) == a + e + b;
    assert Hall(h) !in a;
    if h.Left? && m.hall.Left? && h.idx < m.hall.idx {
      assert e[h.idx] == Hall(h);
    }
    if h.Right? && m.hall.Right? && h.idx < m.hall.idx {
      assert e[h.idx] == Hall(h);
    }
  }

  // ---------------------------------------------------------------------
  // The burrow

  /** The contents of every slot of `State`: the rooms (indexed by
      `dest_room_idx`, top slot first), the two end arrays and the three
      spots between rooms. */
  datatype Burrow = Burrow(rooms: seq<seq<Option<Crab>>>, left: seq<Option<Crab>>, right: seq<Option<Crab>>,
                           ab: Option<Crab>, bc: Option<Crab>, cd: Option<Crab>)

  /** The shape of `State<N>`: four rooms of the same depth `N` and two
      spots on each end. */
  predicate WellFormed(b: Burrow) {
    |b.rooms| == 4 && (forall r | 0 <= r < 4 :: |b.rooms[r]| == |b.rooms[0]|) && |b.left| == 2 && |b.right| == 2
  }

  function Depth(b: Burrow): nat
    requires WellFormed(b)
  {
    |b.rooms[0]|
  }

  /** The slots of a burrow of depth `Depth(b)`. */
  predicate SlotIn(b: Burrow, s: Slot)
    requires WellFormed(b)
  {
    match s
    case Hall(h) => HallInRange(h)
    case Room(p) => p.depth < Depth(b)
  }

  /** `get_spot`: what a slot holds. */
  function Get(b: Burrow, s: Slot): Option<Crab>
    requires WellFormed(b) && SlotIn(b, s)
  {
    match s
    case Hall(Left(i)) => b.left[i]
    case Hall(AB) => b.ab
    case Hall(BC) => b.bc
    case Hall(CD) => b.cd
    case Hall(Right(i)) => b.right[i]
    case Room(p) => b.rooms[DestRoom(p.kind)][p.depth]
  }

  /** Writing through `get_spot_mut`: slot `s` now holds `v`. */
  function Put(b: Burrow, s: Slot, v: Option<Crab>): (b': Burrow)
    requires WellFormed(b) && SlotIn(b, s)
    ensures WellFormed(b') && Depth(b') == Depth(b)
  {
    match s
    case Hall(Left(i)) => b.(left := b.left[i := v])
    case Hall(AB) => b.(ab := v)
    case Hall(BC) => b.(bc := v)
    case Hall(CD) => b.(cd := v)
    case Hall(Right(i)) => b.(right := b.right[i := v])
    case Room(p) =>
      var r := DestRoom(p.kind);
      b.(rooms := b.rooms[r := b.rooms[r][p.depth := v]])
  }

  /** After a write, the written slot holds the new value and every other
      slot is unchanged. */
  lemma GetPut(b: Burrow, s: Slot, v: Option<Crab>, t: Slot)
    requires WellFormed(b) && SlotIn(b, s) && SlotIn(b, t)
    ensures Get(Put(b, s, v), t) == if t == s then v else Get(b, t)
  {
    if t.Room? && s.Room? && t != s {
      DestRoomOfCrab(DestRoom(t.place.kind));
      DestRoomOfCrab(DestRoom(s.place.kind));
    }
  }

  /** Both ends of a move are slots of the burrow. */
  predicate MoveIn(b: Burrow, m: Move)
    requires WellFormed(b)
  {
    HallInRange(m.hall) && m.room.depth < Depth(b)
  }

  /** Every slot a move crosses is a slot of the burrow. */
  lemma PassesIn(b: Burrow, m: Move)
    requires WellFormed(b) && MoveIn(b, m)
    ensures forall i | 0 <= i < |PassesThrough(m)| :: SlotIn(b, PassesThrough(m)[i])
  {
    var a, e, w := SlotsAbove(m.room.kind, m.room.depth), EndSpotsBefore(m.hall), Between(m.room.kind, m.hall);
    assert PassesThrough(m) == a + e + w;
    forall i | 0 <= i < |PassesThrough(m)|
      ensures SlotIn(b, PassesThrough(m)[i])
    {
      if i < |a| {
      } else if i < |a| + |e| {
        assert PassesThrough(m)[i] == e[i - |a|];
      } else {
        assert PassesThrough(m)[i] == w[i - |a| - |e|];
      }
    }
  }

  /** Every slot on the path of the move is empty. */
  predicate EmptyPath(b: Burrow, m: Move)
    requires WellFormed(b) && MoveIn(b, m)
  {
    PassesIn(b, m);
    forall i | 0 <= i < |PassesThrough(m)| :: Get(b, PassesThrough(m)[i]).None?
  }

  /** The room slot `i` steps in from the door of the room of `kind`. */
  function RoomAt(b: Burrow, kind: Crab, i: nat): Option<Crab>
    requires WellFormed(b) && i < Depth(b)
  {
    Get(b, Room(RoomSpot(kind, i)))
  }

  /** `is_valid_move`: the source holds a crab, the target is empty, the
      path is clear, and
      - out of a room only when the crab is in a room not its own or a
        crab deeper in the room differs from it;
      - into a room only into its own, with every deeper slot empty or
        holding its kind. */
  predicate ValidMove(b: Burrow, m: Move)
    requires WellFormed(b) && MoveIn(b, m)
  {
    Get(b, Source(m)).Some? && Get(b, Target(m)).None? && EmptyPath(b, m)
    && var source := Get(b, Source(m)).value;
    match m
    case FromRoom(spot, _) =>
      var wrongRoom := spot.kind != source;
      var wrongBelow := exists i | spot.depth + 1 <= i < Depth(b) ::
        RoomAt(b, spot.kind, i).Some? && RoomAt(b, spot.kind, i).value != source;
      wrongBelow || wrongRoom
    case ToRoom(_, spot) =>
      && spot.kind == source
      && forall i | spot.depth + 1 <= i < Depth(b) :: RoomAt(b, spot.kind, i).None? || RoomAt(b, spot.kind, i) == Some(source)
  }

  /** The burrow after `apply_move`: the crab is taken from the source and
      put in the target. */
  function Applied(b: Burrow, m: Move): (b': Burrow)
    requires WellFormed(b) && MoveIn(b, m) && Get(b, Source(m)).Some?
    ensures WellFormed(b') && Depth(b') == Depth(b)
  {
    Put(Put(b, Source(m), None), Target(m), Get(b, Source(m)))
  }

  /** The cost `apply_move` returns: steps times the crab's step cost. */
  function MoveCost(b: Burrow, m: Move): nat
    requires WellFormed(b) && MoveIn(b, m) && Get(b, Source(m)).Some?
  {
    Steps(m) * StepCost(Get(b, Source(m)).value)
  }

  /** `apply_move` empties the source, puts the same crab in the target and
      leaves every other slot unchanged. */
  lemma AppliedSlots(b: Burrow, m: Move, s: Slot)
    requires WellFormed(b) && MoveIn(b, m) && Get(b, Source(m)).Some? && SlotIn(b, s)
    ensures Get(Applied(b, m), s) ==
      if s == Target(m) then Get(b, Source(m)) else if s == Source(m) then None else Get(b, s)
  {
    GetPut(b, Source(m), None, s);
    GetPut(Put(b, Source(m), None), Target(m), Get(b, Source(m)), s);
  }

  /** `is_final`: every room slot holds a crab of the room's own kind. */
  predicate IsFinal(b: Burrow)
    requires WellFormed(b)
  {
    forall r, d | 0 <= r < 4 && 0 <= d < Depth(b) :: b.rooms[r][d].Some? && DestRoom(b.rooms[r][d].value) == r
  }

  /** In the final state no move is valid: rooms are full, and no crab is
      in a wrong room or above a crab of another kind. */
  lemma FinalIsStuck(b: Burrow, m: Move)
    requires WellFormed(b) && MoveIn(b, m) && IsFinal(b)
    ensures !ValidMove(b, m)
  {
    var r := DestRoom(m.room.kind);
    var source := b.rooms[r][m.room.depth].value;
    assert CrabOfRoom(DestRoom(source)) == source;
    forall i | m.room.depth + 1 <= i < Depth(b)
      ensures RoomAt(b, m.room.kind, i) == Some(source)
    {
      assert CrabOfRoom(DestRoom(b.rooms[r][i].value)) == b.rooms[r][i].value;
    }
  }

  // ---------------------------------------------------------------------
  // Why the search ends: every valid move lowers a measure

  /** The crab in slot `d` of room `r` is home for good: it is of the
      room's kind and every deeper slot is empty or holds the same kind. */
  predicate Settled(room: seq<Option<Crab>>, r: nat, d: nat)
    requires d < |room|
  {
    room[d].Some? && DestRoom(room[d].value) == r
    && forall i | d < i < |room| :: room[i].None? || room[i] == room[d]
  }

  /** Crabs among the top `k` slots of room `r` that are not settled. */
  function Unsettled(room: seq<Option<Crab>>, r: nat, k: nat): nat
    requires k <= |room|
  {
    if k == 0 then 0
    else Unsettled(room, r, k - 1) + (if room[k - 1].Some? && !Settled(room, r, k - 1) then 1 else 0)
  }

  /** Unsettled crabs in the first `j` rooms. */
  function UnsettledRooms(rooms: seq<seq<Option<Crab>>>, j: nat): nat
    requires j <= |rooms|
  {
    if j == 0 then 0 else UnsettledRooms(rooms, j - 1) + Unsettled(rooms[j - 1], j - 1, |rooms[j - 1]|)
  }

  function Occupied(o: Option<Crab>): nat {
    if o.Some? then 1 else 0
  }

  /** Crabs in the hallway. */
  function HallCount(b: Burrow): nat
    requires WellFormed(b)
  {
    Occupied(b.left[0]) + Occupied(b.left[1]) + Occupied(b.ab) + Occupied(b.bc) + Occupied(b.cd)
    + Occupied(b.right[0]) + Occupied(b.right[1])
  }

  /** An unsettled crab still has to leave its room and come back; a crab
      in the hallway still has to enter its room. */
  function Measure(b: Burrow): nat
    requires WellFormed(b)
  {
    2 * UnsettledRooms(b.rooms, 4) + HallCount(b)
  }

  /** Taking an unsettled crab with nothing above it out of its room
      leaves the other crabs' status alone. */
  lemma {:induction false} UnsettledTake(room: seq<Option<Crab>>, r: nat, d: nat, k: nat)
    requires d < |room| && k <= |room|
    requires room[d].Some? && !Settled(room, r, d)
    requires forall i | 0 <= i < d :: room[i].None?
    ensures Unsettled(room[d := None], r, k) + (if d < k then 1 else 0) == Unsettled(room, r, k)
  {
    if k > 0 {
      UnsettledTake(room, r, d, k - 1);
      var room' := room[d := None];
      if k - 1 > d {
        SettledSame(room, room', r, k - 1);
      }
    }
  }

  /** Whether a crab is settled depends only on its slot and the deeper
      ones. */
  lemma SettledSame(room: seq<Option<Crab>>, room': seq<Option<Crab>>, r: nat, j: nat)
    requires j < |room| == |room'|
    requires forall i | j <= i < |room| :: room'[i] == room[i]
    ensures Settled(room', r, j) == Settled(room, r, j)
  {
  }

  /** Putting a crab into its own room, above crabs of its kind only and
      below nothing, leaves the count of unsettled crabs alone. */
  lemma {:induction false} UnsettledPlace(room: seq<Option<Crab>>, r: nat, d: nat, c: Crab, k: nat)
    requires d < |room| && k <= |room|
    requires room[d].None? && DestRoom(c) == r
    requires forall i | d < i < |room| :: room[i].None? || room[i] == Some(c)
    requires forall i | 0 <= i < d :: room[i].None?
    ensures Unsettled(room[d := Some(c)], r, k) == Unsettled(room, r, k)
  {
    if k > 0 {
      UnsettledPlace(room, r, d, c, k - 1);
      var room' := room[d := Some(c)];
      if k - 1 > d {
        SettledSame(room, room', r, k - 1);
      } else if k - 1 == d {
        assert Settled(room', r, d);
      }
    }
  }

  /** Replacing one room changes the total by that room's change. */
  lemma {:induction false} UnsettledRoomsUpdate(rooms: seq<seq<Option<Crab>>>, r: nat, room: seq<Option<Crab>>, j: nat)
    requires r < |rooms| && j <= |rooms|
    ensures UnsettledRooms(rooms[r := room], j) + (if r < j then Unsettled(rooms[r], r, |rooms[r]|) else 0)
         == UnsettledRooms(rooms, j) + (if r < j then Unsettled(room, r, |room|) else 0)
  {
    if j > 0 {
      UnsettledRoomsUpdate(rooms, r, room, j - 1);
    }
  }

  /** Writing a hallway spot changes the hallway count by the change of
      that spot. */
  lemma HallCountPut(b: Burrow, h: HallwaySpot, v: Option<Crab>)
    requires WellFormed(b) && HallInRange(h)
    ensures HallCount(Put(b, Hall(h), v)) + Occupied(Get(b, Hall(h))) == HallCount(b) + Occupied(v)
    ensures Put(b, Hall(h), v).rooms == b.rooms
  {
  }

  /** The slots above the room end of a valid move are empty. */
  lemma AboveEmpty(b: Burrow, m: Move)
    requires WellFormed(b) && MoveIn(b, m) && ValidMove(b, m)
    ensures forall i | 0 <= i < m.room.depth :: b.rooms[DestRoom(m.room.kind)][i].None?
  {
    forall i | 0 <= i < m.room.depth
      ensures b.rooms[DestRoom(m.room.kind)][i].None?
    {
      assert PassesThrough(m)[i] == Room(RoomSpot(m.room.kind, i));
    }
  }

  /** Every valid move lowers the measure by one: leaving a room turns an
      unsettled crab (2) into a crab in the hallway (1); entering a room
      turns a crab in the hallway (1) into a settled one (0). So no path
      of valid moves is longer than `Measure` of its start. */
  lemma MoveDecreases(b: Burrow, m: Move)
    requires WellFormed(b) && MoveIn(b, m) && ValidMove(b, m)
    ensures Measure(Applied(b, m)) + 1 == Measure(b)
  {
    var r, d := DestRoom(m.room.kind), m.room.depth;
    var c := Get(b, Source(m)).value;
    var room := b.rooms[r];
    AboveEmpty(b, m);
    if m.FromRoom? {
      var b1 := Put(b, Source(m), None);
      assert b1.rooms == b.rooms[r := room[d := None]];
      assert !Settled(room, r, d) by {
        if c != m.room.kind {
          assert CrabOfRoom(DestRoom(c)) == c;
        } else {
          var i :| d + 1 <= i < Depth(b) && RoomAt(b, m.room.kind, i).Some? && RoomAt(b, m.room.kind, i).value != c;
          assert room[i] != room[d];
        }
      }
      UnsettledTake(room, r, d, |room|);
      UnsettledRoomsUpdate(b.rooms, r, room[d := None], 4);
      HallCountPut(b1, m.hall, Some(c));
      assert HallCount(b1) == HallCount(b);
    } else {
      var b1 := Put(b, Source(m), None);
      HallCountPut(b, m.hall, None);
      assert b1.rooms == b.rooms;
      assert Applied(b, m).rooms == b.rooms[r := room[d := Some(c)]];
      assert HallCount(Applied(b, m)) == HallCount(b1);
      forall i | d < i < |room|
        ensures room[i].None? || room[i] == Some(c)
      {
        assert RoomAt(b, m.room.kind, i) == room[i];
      }
      UnsettledPlace(room, r, d, c, |room|);
      UnsettledRoomsUpdate(b.rooms, r, room[d := Some(c)], 4);
    }
  }

  // ---------------------------------------------------------------------
  // The state the search updates in place

  /** The puzzle input: four rooms of the same depth `N`, top slot first. */
  datatype Input = Input(rooms: seq<seq<Crab>>)

  predicate InputShape(input: Input) {
    |input.rooms| == 4 && forall r | 0 <= r < 4 :: |input.rooms[r]| == |input.rooms[0]|
  }

  /** `State::from`: every room slot holds the input's crab, and the
      hallway is empty. */
  function Initial(input: Input): (b: Burrow)
    requires InputShape(input)
    ensures WellFormed(b) && Depth(b) == |input.rooms[0]|
    ensures forall h | HallInRange(h) :: Get(b, Hall(h)).None?
    ensures forall r, d | 0 <= r < 4 && 0 <= d < Depth(b) :: Get(b, Room(RoomSpot(CrabOfRoom(r), d))) == Some(input.rooms[r][d])
  {
    var rooms := seq(4, r requires 0 <= r < 4 =>
      seq(|input.rooms[r]|, d requires 0 <= d < |input.rooms[r]| => Some(input.rooms[r][d])));
    var b := Burrow(rooms, [None, None], [None, None], None, None, None);
    assert forall r | 0 <= r < 4 :: DestRoom(CrabOfRoom(r)) == r;
    b
  }

  /** The start is final exactly when every crab already sits in its own
      room (the doc-test of `is_final`). */
  lemma InitialFinal(input: Input)
    requires InputShape(input)
    ensures IsFinal(Initial(input)) <==>
      forall r, d | 0 <= r < 4 && 0 <= d < |input.rooms[0]| :: DestRoom(input.rooms[r][d]) == r
  {
    var b := Initial(input);
    forall r, d | 0 <= r < 4 && 0 <= d < |input.rooms[0]|
      ensures b.rooms[r][d] == Some(input.rooms[r][d])
    {
      DestRoomOfCrab(r);
      assert Get(b, Room(RoomSpot(CrabOfRoom(r), d))) == b.rooms[r][d];
    }
  }

  /** `State`: the slots of the burrow, updated in place by `apply_move`. */
  class State {
    var rooms: seq<seq<Option<Crab>>>
    var left: seq<Option<Crab>>
    var right: seq<Option<Crab>>
    var ab: Option<Crab>
    var bc: Option<Crab>
    var cd: Option<Crab>

    function Value(): Burrow
      reads this
    {
      Burrow(rooms, left, right, ab, bc, cd)
    }

    /** `State::from`. */
    constructor FromInput(input: Input)
      requires InputShape(input)
      ensures Value() == Initial(input)
    {
      var b := Initial(input);
      rooms, left, right := b.rooms, b.left, b.right;
      ab, bc, cd := b.ab, b.bc, b.cd;
    }

    /** `clone`. */
    method Clone() returns (s: State)
      ensures fresh(s) && s.Value() == Value()
    {
      s := new State.FromValue(Value());
    }

    constructor FromValue(b: Burrow)
      ensures Value() == b
    {
      rooms, left, right := b.rooms, b.left, b.right;
      ab, bc, cd := b.ab, b.bc, b.cd;
    }

    /** `*slot.get_spot_mut(self) = v`. */
    method Store(slot: Slot, v: Option<Crab>)
      requires WellFormed(Value()) && SlotIn(Value(), slot)
      modifies this
      ensures Value() == Put(old(Value()), slot, v)
    {
      match slot
      case Hall(Left(i)) => left := left[i := v];
      case Hall(AB) => ab := v;
      case Hall(BC) => bc := v;
      case Hall(CD) => cd := v;
      case Hall(Right(i)) => right := right[i := v];
      case Room(p) =>
        var r := DestRoom(p.kind);
        rooms := rooms[r := rooms[r][p.depth := v]];
    }

    /** `apply_move`: takes the crab out of the source slot, puts it in the
        target slot and returns steps times its step cost. */
    method ApplyMove(m: Move) returns (cost: nat)
      requires WellFormed(Value()) && MoveIn(Value(), m) && Get(Value(), Source(m)).Some?
      modifies this
      ensures Value() == Applied(old(Value()), m)
      ensures cost == MoveCost(old(Value()), m)
    {
      var crab := Get(Value(), Source(m));
      Store(Source(m), None);
      cost := Steps(m) * StepCost(crab.value);
      Store(Target(m), crab);
    }
  }

  // ---------------------------------------------------------------------
  // The moves the search tries

  /** `HALL_SPORTS`: the seven hallway spots. */
  const Halls: seq<HallwaySpot> := [AB, BC, CD, Left(0), Left(1), Right(0), Right(1)]

  /** `CRABS`. */
  const Crabs: seq<Crab> := [Amber, Bronze, Copper, Desert]

  lemma HallsInRange(h: HallwaySpot)
    ensures h in Halls <==> HallInRange(h)
  {
    if HallInRange(h) {
      match h
      case Left(i) => assert h == Halls[3 + i];
      case Right(i) => assert h == Halls[5 + i];
      case _ =>
    }
  }

  /** For one hallway spot and one kind, for each depth: out of the room,
      then into it. */
  function MovesAt(hall: HallwaySpot, crab: Crab, n: nat): seq<Move> {
    if n == 0 then []
    else MovesAt(hall, crab, n - 1) + [FromRoom(RoomSpot(crab, n - 1), hall), ToRoom(hall, RoomSpot(crab, n - 1))]
  }

  function MovesFor(hall: HallwaySpot, crabs: seq<Crab>, n: nat): seq<Move> {
    if crabs == [] then [] else MovesAt(hall, crabs[0], n) + MovesFor(hall, crabs[1..], n)
  }

  /** The candidate moves of `possible_moves`, in its order. */
  function Candidates(halls: seq<HallwaySpot>, n: nat): seq<Move> {
    if halls == [] then [] else MovesFor(halls[0], Crabs, n) + Candidates(halls[1..], n)
  }

  lemma {:induction false} MovesAtExact(hall: HallwaySpot, crab: Crab, n: nat, m: Move)
    ensures m in MovesAt(hall, crab, n) <==> m.hall == hall && m.room.kind == crab && m.room.depth < n
  {
    if n > 0 {
      MovesAtExact(hall, crab, n - 1, m);
    }
  }

  lemma {:induction false} MovesForExact(hall: HallwaySpot, crabs: seq<Crab>, n: nat, m: Move)
    ensures m in MovesFor(hall, crabs, n) <==> m.hall == hall && m.room.kind in crabs && m.room.depth < n
  {
    if crabs != [] {
      MovesAtExact(hall, crabs[0], n, m);
      MovesForExact(hall, crabs[1..], n, m);
      assert crabs == [crabs[0]] + crabs[1..];
    }
  }

  lemma {:induction false} CandidatesExact(halls: seq<HallwaySpot>, n: nat, m: Move)
    ensures m in Candidates(halls, n) <==> m.hall in halls && m.room.depth < n
  {
    if halls != [] {
      MovesForExact(halls[0], Crabs, n, m);
      CandidatesExact(halls[1..], n, m);
      assert halls == [halls[0]] + halls[1..];
      assert m.room.kind in Crabs by {
        match m.room.kind
        case Amber => assert Crabs[0] == Amber;
        case Bronze => assert Crabs[1] == Bronze;
        case Copper => assert Crabs[2] == Copper;
        case Desert => assert Crabs[3] == Desert;
      }
    }
  }

  /** `.filter(|movement| state.is_valid_move(movement))`, order kept. */
  function KeepValid(b: Burrow, moves: seq<Move>): (r: seq<Move>)
    requires WellFormed(b) && forall i | 0 <= i < |moves| :: MoveIn(b, moves[i])
    ensures |r| <= |moves|
    ensures forall i | 0 <= i < |r| :: MoveIn(b, r[i]) && ValidMove(b, r[i])
    ensures forall m :: m in r <==> m in moves && ValidMove(b, m)
  {
    if moves == [] then []
    else
      var rest := KeepValid(b, moves[1..]);
      assert forall m :: m in moves <==> m == moves[0] || m in moves[1..];
      if ValidMove(b, moves[0]) then [moves[0]] + rest else rest
  }

  /** The filter keeps every valid move as often as it is listed and drops every other. */
  lemma {:induction false} KeepValidCount(b: Burrow, moves: seq<Move>, m: Move)
    requires WellFormed(b) && forall i | 0 <= i < |moves| :: MoveIn(b, moves[i])
    requires MoveIn(b, m)
    ensures multiset(KeepValid(b, moves))[m] == if ValidMove(b, m) then multiset(moves)[m] else 0
  {
    if moves != [] {
      KeepValidCount(b, moves[1..], m);
      assert moves == [moves[0]] + moves[1..];
    }
  }

  /** The validity of each listed move, position by position. */
  function Flags(b: Burrow, moves: seq<Move>): (r: seq<bool>)
    requires WellFormed(b) && forall i | 0 <= i < |moves| :: MoveIn(b, moves[i])
    ensures |r| == |moves| && forall i | 0 <= i < |moves| :: r[i] == ValidMove(b, moves[i])
  {
    seq(|moves|, i requires 0 <= i < |moves| => ValidMove(b, moves[i]))
  }

  /** The subsequence of `s` at the positions `keep` marks, in their order. */
  function Select<T>(s: seq<T>, keep: seq<bool>): (r: seq<T>)
    requires |keep| == |s|
    ensures |r| <= |s|
  {
    if s == [] then [] else (if keep[0] then [s[0]] else []) + Select(s[1..], keep[1..])
  }

  /** Selecting from two runs one after the other is selecting from each and concatenating. */
  lemma {:induction false} SelectAppend<T>(s: seq<T>, keep: seq<bool>, t: seq<T>, keep': seq<bool>)
    requires |keep| == |s| && |keep'| == |t|
    ensures Select(s + t, keep + keep') == Select(s, keep) + Select(t, keep')
  {
    if s == [] {
      assert s + t == t && keep + keep' == keep';
    } else {
      var head := if keep[0] then [s[0]] else [];
      assert (s + t)[0] == s[0] && (keep + keep')[0] == keep[0];
      assert (s + t)[1..] == s[1..] + t && (keep + keep')[1..] == keep[1..] + keep';
      calc {
        Select(s + t, keep + keep');
      ==
        head + Select(s[1..] + t, keep[1..] + keep');
      == { SelectAppend(s[1..], keep[1..], t, keep'); }
        head + (Select(s[1..], keep[1..]) + Select(t, keep'));
      ==
        (head + Select(s[1..], keep[1..])) + Select(t, keep');
      }
    }
  }

  /** The filter keeps order: it is the subsequence of the listed moves at
      the positions whose move is valid. */
  lemma {:induction false} KeepValidSelect(b: Burrow, moves: seq<Move>)
    requires WellFormed(b) && forall i | 0 <= i < |moves| :: MoveIn(b, moves[i])
    ensures KeepValid(b, moves) == Select(moves, Flags(b, moves))
  {
    if moves != [] {
      assert Flags(b, moves)[1..] == Flags(b, moves[1..]);
      KeepValidSelect(b, moves[1..]);
    }
  }

  /** `possible_moves`. */
  function PossibleMoves(b: Burrow): (r: seq<Move>)
    requires WellFormed(b)
    ensures forall i | 0 <= i < |r| :: MoveIn(b, r[i]) && ValidMove(b, r[i])
  {
    var candidates := Candidates(Halls, Depth(b));
    assert forall i | 0 <= i < |candidates| :: MoveIn(b, candidates[i]) by {
      forall i | 0 <= i < |candidates|
        ensures MoveIn(b, candidates[i])
      {
        CandidatesExact(Halls, Depth(b), candidates[i]);
        HallsInRange(candidates[i].hall);
      }
    }
    KeepValid(b, candidates)
  }

  /** `possible_moves` yields exactly the valid moves of the burrow. */
  lemma PossibleMovesExact(b: Burrow, m: Move)
    requires WellFormed(b)
    ensures m in PossibleMoves(b) <==> MoveIn(b, m) && ValidMove(b, m)
  {
    CandidatesExact(Halls, Depth(b), m);
    HallsInRange(m.hall);
  }

  // ---------------------------------------------------------------------
  // The search

  /** `path` is a sequence of valid moves that leads from `b` to the
      final state and costs `cost` in total. */
  ghost predicate Solves(b: Burrow, path: seq<Move>, cost: int)
    requires WellFormed(b)
    decreases |path|
  {
    if path == [] then IsFinal(b) && cost == 0
    else (MoveIn(b, path[0]) && ValidMove(b, path[0])
      && Solves(Applied(b, path[0]), path[1..], cost - MoveCost(b, path[0])))
  }

  /** A valid move followed by a solution of the burrow it leads to. */
  lemma SolvesStep(b: Burrow, m: Move, rest: seq<Move>, cost: int)
    requires WellFormed(b) && MoveIn(b, m) && ValidMove(b, m)
    requires Solves(Applied(b, m), rest, cost - MoveCost(b, m))
    ensures Solves(b, [m] + rest, cost)
  {
    assert ([m] + rest)[1..] == rest;
  }

  /** `simulate`: depth-first over the possible moves, skipping a move
      once its cost exceeds the best found so far and stopping at the first
      move that reaches the final state. The best never grows, and any new
      best is the cost of a real solution: `path` leads from the state to
      the final state at that cost (less the cost already spent). The
      recursion ends because every move lowers `Measure`. */
  method Simulate(state: State, depth: nat, stateCost: nat, minimum: Option<nat>)
    returns (minimum': Option<nat>, ghost path: seq<Move>)
    requires WellFormed(state.Value())
    ensures minimum.Some? ==> minimum'.Some? && minimum'.value <= minimum.value
    ensures minimum' != minimum ==>
      minimum'.Some? && minimum'.value >= stateCost && Solves(state.Value(), path, minimum'.value - stateCost)
    ensures PossibleMoves(state.Value()) == [] ==> minimum' == minimum
    decreases Measure(state.Value()), 2
  {
    ghost var b := state.Value();
    var moves := PossibleMoves(state.Value());
    minimum' := minimum;
    path := [];
    for k := 0 to |moves|
      invariant state.Value() == b
      invariant k == 0 ==> minimum' == minimum
      invariant minimum.Some? ==> minimum'.Some? && minimum'.value <= minimum.value
      invariant minimum' != minimum ==>
        minimum'.Some? && minimum'.value >= stateCost && Solves(b, path, minimum'.value - stateCost)
    {
      var best, found;
      ghost var solution;
      best, found, solution := TryMove(state, b, moves[k], depth, stateCost, minimum');
      if best != minimum' {
        path := solution;
      }
      minimum' := best;
      if found {
        break;
      }
    }
  }

  /** No move is possible from the final state, so `simulate` from it
      tries nothing. */
  lemma FinalNoMoves(b: Burrow)
    requires WellFormed(b) && IsFinal(b)
    ensures PossibleMoves(b) == []
  {
    var moves := PossibleMoves(b);
    if moves != [] {
      FinalIsStuck(b, moves[0]);
    }
  }

  /** The body of the loop of `simulate` for one valid move: `found` when
      the move reaches the final state (the loop then stops); otherwise the
      search goes on from the state after the move. */
  method TryMove(state: State, ghost b: Burrow, movement: Move, depth: nat, stateCost: nat, minimum: Option<nat>)
    returns (minimum': Option<nat>, found: bool, ghost path: seq<Move>)
    requires state.Value() == b && WellFormed(b) && MoveIn(b, movement) && ValidMove(b, movement)
    ensures minimum.Some? ==> minimum'.Some? && minimum'.value <= minimum.value
    ensures minimum' != minimum ==>
      minimum'.Some? && minimum'.value >= stateCost && Solves(b, path, minimum'.value - stateCost)
    decreases Measure(b), 1
  {
    var newState := state.Clone();
    var moveCost := newState.ApplyMove(movement);
    var currentCost := moveCost + stateCost;
    minimum', found, path := minimum, false, [];
    if minimum.Some? && minimum.value < currentCost {
      return;
    }
    if IsFinal(newState.Value()) {
      minimum' := Some(if minimum.None? then currentCost else Min(minimum.value, currentCost));
      found := true;
      SolvesStep(b, movement, [], moveCost);
      path := [movement];
    } else {
      minimum', path := Descend(newState, b, movement, depth, stateCost, moveCost, minimum);
    }
  }

  /** A move that does not finish: the search goes on from the burrow it
      leads to, and a better result found there extends by the move. */
  method Descend(newState: State, ghost b: Burrow, movement: Move, depth: nat, stateCost: nat, moveCost: nat,
                 minimum: Option<nat>)
    returns (minimum': Option<nat>, ghost path: seq<Move>)
    requires WellFormed(b) && MoveIn(b, movement) && ValidMove(b, movement)
    requires newState.Value() == Applied(b, movement) && moveCost == MoveCost(b, movement)
    ensures minimum.Some? ==> minimum'.Some? && minimum'.value <= minimum.value
    ensures minimum' != minimum ==>
      minimum'.Some? && minimum'.value >= stateCost && Solves(b, path, minimum'.value - stateCost)
    decreases Measure(b), 0
  {
    MoveDecreases(b, movement);
    ghost var rest;
    minimum', rest := Simulate(newState, depth + 1, moveCost + stateCost, minimum);
    path := [];
    if minimum' != minimum {
      SolvesStep(b, movement, rest, minimum'.value - stateCost);
      path := [movement] + rest;
    }
  }

  /** A solution has at most `Measure` moves: each move lowers the measure
      by one and the measure never goes below zero. */
  lemma {:induction false} SolvesLength(b: Burrow, path: seq<Move>, cost: int)
    requires WellFormed(b) && Solves(b, path, cost)
    ensures |path| <= Measure(b)
    decreases |path|
  {
    if path != [] {
      MoveDecreases(b, path[0]);
      SolvesLength(Applied(b, path[0]), path[1..], cost - MoveCost(b, path[0]));
    }
  }

  // ---------------------------------------------------------------------
  // Reading the puzzle

  /** The letter of a kind in the drawing. */
  function Letter(c: Crab): char {
    match c
    case Amber => 'A'
    case Bronze => 'B'
    case Copper => 'C'
    case Desert => 'D'
  }

  /** The match on `"A"`, `"B"`, `"C"`, `"D"` in `parse_input`: exactly the
      one-letter pieces naming a kind parse, to that kind. */
  function ParseKind(piece: string): (r: Option<Crab>)
    ensures forall c :: r == Some(c) <==> piece == [Letter(c)]
  {
    if piece == "A" then Some(Amber)
    else if piece == "B" then Some(Bronze)
    else if piece == "C" then Some(Copper)
    else if piece == "D" then Some(Desert)
    else None
  }

  /** `trim_start_matches(c)`: drops the leading run of `c`. */
  function TrimStart(s: string, c: char): (r: string)
    ensures |r| <= |s| && r == s[|s| - |r|..]
    ensures forall i | 0 <= i < |s| - |r| :: s[i] == c
    ensures r == [] || r[0] != c
  {
    if s != [] && s[0] == c then TrimStart(s[1..], c) else s
  }

  /** `trim_end_matches(c)`: drops the trailing run of `c`. */
  function TrimEnd(s: string, c: char): (r: string)
    ensures |r| <= |s| && r == s[..|r|]
    ensures forall i | |r| <= i < |s| :: s[i] == c
    ensures r == [] || r[|r| - 1] != c
  {
    if s != [] && s[|s| - 1] == c then TrimEnd(s[..|s| - 1], c) else s
  }

  /** `trim_matches(c)`: drops the runs of `c` at both ends; what is left
      has `c` at neither end (`TrimMatchesRuns` says which slice it is). */
  function TrimMatches(s: string, c: char): (r: string)
    ensures |r| <= |s|
    ensures r == [] || (r[0] != c && r[|r| - 1] != c)
  {
    TrimEnd(TrimStart(s, c), c)
  }

  /** The one-letter pieces naming `kinds`. */
  function Letters(kinds: seq<Crab>): (r: seq<string>)
    ensures |r| == |kinds|
  {
    seq(|kinds|, i requires 0 <= i < |kinds| => [Letter(kinds[i])])
  }

  /** One row of letters `X#X#X#X`: `splitn(4, '#')`, each piece a kind,
      collected into `Option<Vec<_>>`. The row parses to `kinds` exactly
      when its pieces are the letters of `kinds`. */
  function ParseRow(row: string): (r: Option<seq<Crab>>)
    ensures r.Some? ==> SplitN(row, 4, '#') == Letters(r.value)
    ensures r.None? ==> forall kinds :: SplitN(row, 4, '#') != Letters(kinds)
  {
    var pieces := SplitN(row, 4, '#');
    ParseKinds(pieces)
  }

  /** `collect::<Option<Vec<_>>>()` over the pieces. */
  function ParseKinds(pieces: seq<string>): (r: Option<seq<Crab>>)
    ensures r.Some? ==> pieces == Letters(r.value)
    ensures r.None? ==> forall kinds :: pieces != Letters(kinds)
  {
    if pieces == [] then Some([])
    else
      var init, last := pieces[..|pieces| - 1], pieces[|pieces| - 1];
      match (ParseKinds(init), ParseKind(last))
      case (Some(kinds), Some(k)) =>
        LettersSnoc(kinds + [k]);
        assert (kinds + [k])[..|kinds|] == kinds;
        Some(kinds + [k])
      case (None, _) =>
        forall kinds | |kinds| == |pieces| ensures pieces != Letters(kinds) {
          LettersSnoc(kinds);
        }
        None
      case _ =>
        None
  }

  lemma LettersSnoc(kinds: seq<Crab>)
    requires |kinds| > 0
    ensures Letters(kinds) == Letters(kinds[..|kinds| - 1]) + [[Letter(kinds[|kinds| - 1])]]
  {
  }

  /** Different kinds have different letters. */
  lemma LettersInjective(a: seq<Crab>, b: seq<Crab>)
    requires Letters(a) == Letters(b)
    ensures a == b
  {
    forall i | 0 <= i < |a| ensures a[i] == b[i] {
      assert Letters(a)[i] == Letters(b)[i];
    }
  }

  /** The rows of the drawing `parse_input` reads: the third line (the top
      slots, between runs of `#`) and the fourth (the bottom slots, after
      trimming white space). */
  function TopRow(lines: seq<string>): string
    requires |lines| >= 4
  {
    TrimMatches(lines[2], '#')
  }

  function BottomRow(lines: seq<string>): string
    requires |lines| >= 4
  {
    TrimMatches(Trim(lines[3]), '#')
  }

  /** `tops.zip(bottoms).map(|(a, b)| [a, b])`: room `k` holds the
      `k`-th top above the `k`-th bottom. */
  function Zip(tops: seq<Crab>, bottoms: seq<Crab>): (input: Input)
    requires |tops| == 4 && |bottoms| == 4
    ensures InputShape(input) && |input.rooms[0]| == 2
    ensures forall k | 0 <= k < 4 :: input.rooms[k] == [tops[k], bottoms[k]]
  {
    Input([[tops[0], bottoms[0]], [tops[1], bottoms[1]], [tops[2], bottoms[2]], [tops[3], bottoms[3]]])
  }

  /** `parse_input`: both rows must parse, each to four kinds; room `r`
      gets the `r`-th kind of the top row above the `r`-th of the bottom
      row. A missing line, a piece that is not a kind or a row of another
      length makes the source panic, here `None`. */
  function ParseInput(lines: seq<string>): (r: Option<Input>)
    ensures r.Some? ==> InputShape(r.value) && |r.value.rooms[0]| == 2
  {
    if |lines| < 4 then None
    else
      match (ParseRow(TopRow(lines)), ParseRow(BottomRow(lines)))
      case (Some(tops), Some(bottoms)) =>
        if |tops| == 4 && |bottoms| == 4 then
          Some(Zip(tops, bottoms))
        else None
      case _ => None
  }

  /** What `parse_input` accepts: four lines at least, and both rows
      parsing to four kinds; room `k` then holds the `k`-th kind of the top
      row above the `k`-th of the bottom row. */
  lemma ParseInputRooms(lines: seq<string>)
    ensures ParseInput(lines).Some? <==> (|lines| >= 4
      && (exists tops :: |tops| == 4 && ParseRow(TopRow(lines)) == Some(tops))
      && (exists bottoms :: |bottoms| == 4 && ParseRow(BottomRow(lines)) == Some(bottoms)))
    ensures ParseInput(lines).Some? ==>
      ParseInput(lines).value == Zip(ParseRow(TopRow(lines)).value, ParseRow(BottomRow(lines)).value)
  {
    if |lines| >= 4 {
      var top, bottom := ParseRow(TopRow(lines)), ParseRow(BottomRow(lines));
      if top.Some? && bottom.Some? && |top.value| == 4 && |bottom.value| == 4 {
        assert ParseInput(lines) == Some(Zip(top.value, bottom.value));
      }
    }
  }

  /** A run of `c` before a slice not starting with `c` is all that
      `trim_start_matches` drops. */
  lemma {:induction false} TrimStartRun(pre: string, t: string, c: char)
    requires forall i | 0 <= i < |pre| :: pre[i] == c
    requires t != [] && t[0] != c
    ensures TrimStart(pre + t, c) == t
    decreases |pre|
  {
    if pre != [] {
      assert (pre + t)[1..] == pre[1..] + t;
      TrimStartRun(pre[1..], t, c);
    }
  }

  lemma {:induction false} TrimEndRun(t: string, post: string, c: char)
    requires forall i | 0 <= i < |post| :: post[i] == c
    requires t != [] && t[|t| - 1] != c
    ensures TrimEnd(t + post, c) == t
    decreases |post|
  {
    if post != [] {
      assert (t + post)[..|t + post| - 1] == t + post[..|post| - 1];
      TrimEndRun(t, post[..|post| - 1], c);
    }
  }

  /** `trim_matches` drops exactly the runs of `c` around a slice with
      `c` at neither end. */
  lemma TrimMatchesRuns(pre: string, t: string, post: string, c: char)
    requires forall i | 0 <= i < |pre| :: pre[i] == c
    requires forall i | 0 <= i < |post| :: post[i] == c
    requires t != [] && t[0] != c && t[|t| - 1] != c
    ensures TrimMatches(pre + t + post, c) == t
  {
    assert pre + t + post == pre + (t + post);
    TrimStartRun(pre, t + post, c);
    TrimEndRun(t, post, c);
  }

  /** Leading white space before a slice with no white space at either end
      is all that `trim` drops. */
  lemma {:induction false} TrimLeading(ws: string, t: string)
    requires forall i | 0 <= i < |ws| :: IsWhitespace(ws[i])
    requires t != [] && !IsWhitespace(t[0]) && !IsWhitespace(t[|t| - 1])
    ensures Trim(ws + t) == t
    decreases |ws|
  {
    if ws != [] {
      assert (ws + t)[1..] == ws[1..] + t;
      TrimLeading(ws[1..], t);
    }
  }

  /** The letters of a row of four kinds, with `#` between them. */
  function LetterRow(kinds: seq<Crab>): (row: string)
    requires |kinds| == 4
    ensures row == Join([[Letter(kinds[0])], [Letter(kinds[1])], [Letter(kinds[2])], [Letter(kinds[3])]], '#')
  {
    var pieces := [[Letter(kinds[0])], [Letter(kinds[1])], [Letter(kinds[2])], [Letter(kinds[3])]];
    assert Join(pieces[2..], '#') == pieces[2] + ['#'] + pieces[3];
    assert Join(pieces[1..], '#') == pieces[1] + ['#'] + Join(pieces[2..], '#');
    [Letter(kinds[0]), '#', Letter(kinds[1]), '#', Letter(kinds[2]), '#', Letter(kinds[3])]
  }

  /** A row of letters parses back to its kinds. */
  lemma ParseLetterRow(kinds: seq<Crab>)
    requires |kinds| == 4
    ensures ParseRow(LetterRow(kinds)) == Some(kinds)
  {
    var pieces := [[Letter(kinds[0])], [Letter(kinds[1])], [Letter(kinds[2])], [Letter(kinds[3])]];
    SplitNJoin(pieces, '#');
    assert pieces == Letters(kinds);
    var r := ParseRow(LetterRow(kinds));
    LettersInjective(r.value, kinds);
  }

  /** The puzzle drawing of a burrow of depth two: wall, empty hallway,
      the top slots between `###` runs, the bottom slots indented. */
  function Drawing(input: Input): seq<string>
    requires InputShape(input) && |input.rooms[0]| == 2
  {
    var tops := [input.rooms[0][0], input.rooms[1][0], input.rooms[2][0], input.rooms[3][0]];
    var bottoms := [input.rooms[0][1], input.rooms[1][1], input.rooms[2][1], input.rooms[3][1]];
    ["#############", "#...........#", "###" + LetterRow(tops) + "###", "  #" + LetterRow(bottoms) + "#", "  #########"]
  }

  lemma TopRowDrawn(lines: seq<string>, top: string)
    requires |lines| >= 4 && lines[2] == "###" + top + "###"
    requires top != [] && top[0] != '#' && top[|top| - 1] != '#'
    ensures TopRow(lines) == top
  {
    TrimMatchesRuns("###", top, "###", '#');
  }

  lemma BottomRowDrawn(lines: seq<string>, bottom: string)
    requires |lines| >= 4 && lines[3] == "  #" + bottom + "#"
    requires bottom != [] && bottom[0] != '#' && bottom[|bottom| - 1] != '#'
    ensures BottomRow(lines) == bottom
  {
    assert "  #" + bottom + "#" == "  " + ("#" + bottom + "#");
    TrimLeading("  ", "#" + bottom + "#");
    TrimMatchesRuns("#", bottom, "#", '#');
  }

  /** `parse_input` reads back the burrow a drawing shows. */
  lemma ParseDrawing(input: Input)
    requires InputShape(input) && |input.rooms[0]| == 2
    ensures ParseInput(Drawing(input)) == Some(input)
  {
    var lines := Drawing(input);
    var tops := [input.rooms[0][0], input.rooms[1][0], input.rooms[2][0], input.rooms[3][0]];
    var bottoms := [input.rooms[0][1], input.rooms[1][1], input.rooms[2][1], input.rooms[3][1]];
    TopRowDrawn(lines, LetterRow(tops));
    BottomRowDrawn(lines, LetterRow(bottoms));
    ParseLetterRow(tops);
    ParseLetterRow(bottoms);
    ParseInputRooms(lines);
    ZipColumns(input, tops, bottoms);
  }

  lemma ZipColumns(input: Input, tops: seq<Crab>, bottoms: seq<Crab>)
    requires InputShape(input) && |input.rooms[0]| == 2
    requires tops == [input.rooms[0][0], input.rooms[1][0], input.rooms[2][0], input.rooms[3][0]]
    requires bottoms == [input.rooms[0][1], input.rooms[1][1], input.rooms[2][1], input.rooms[3][1]]
    ensures Zip(tops, bottoms) == input
  {
    var z := Zip(tops, bottoms);
    forall k | 0 <= k < 4 ensures z.rooms[k] == input.rooms[k] {
      assert input.rooms[k] == [tops[k], bottoms[k]];
    }
  }

  // ---------------------------------------------------------------------
  // The two parts

  /** The two rows `part2` folds in between the top and bottom rows, room
      by room. */
  const Folded: seq<seq<Crab>> := [[Desert, Desert], [Copper, Bronze], [Bronze, Amber], [Amber, Copper]]

  /** `part2`'s input: each room of depth two gets the folded rows between
      its top and bottom crab. */
  function Unfold(input: Input): (r: Input)
    requires InputShape(input) && |input.rooms[0]| == 2
    ensures InputShape(r) && |r.rooms[0]| == 4
    ensures forall k | 0 <= k < 4 ::
      r.rooms[k][0] == input.rooms[k][0] && r.rooms[k][1..3] == Folded[k] && r.rooms[k][3] == input.rooms[k][1]
  {
    var a, b, c, d := input.rooms[0], input.rooms[1], input.rooms[2], input.rooms[3];
    Input([[a[0], Desert, Desert, a[1]], [b[0], Copper, Bronze, b[1]], [c[0], Bronze, Amber, c[1]], [d[0], Amber, Copper, d[1]]])
  }

  /** Build the start state, run `simulate` from it with no best yet, and
      unwrap the best (`None` here where the source panics). */
  method Solve(input: Input) returns (r: Option<nat>, ghost path: seq<Move>)
    requires InputShape(input)
    ensures r.Some? ==> Solves(Initial(input), path, r.value) && |path| <= Measure(Initial(input))
    ensures IsFinal(Initial(input)) ==> r.None?
  {
    var state := new State.FromInput(input);
    if IsFinal(state.Value()) {
      FinalNoMoves(state.Value());
    }
    r, path := Simulate(state, 1, 0, None);
    if r.Some? {
      SolvesLength(Initial(input), path, r.value);
    }
  }

  /** `part1`: the cost `simulate` finds for the parsed burrow. A burrow
      that is already sorted has no valid move, so `simulate` finds
      nothing and the source's `unwrap` panics. */
  method Part1(lines: seq<string>) returns (r: Option<nat>, ghost path: seq<Move>)
    ensures r.Some? ==> ParseInput(lines).Some? && Solves(Initial(ParseInput(lines).value), path, r.value)
    ensures ParseInput(lines).Some? && IsFinal(Initial(ParseInput(lines).value)) ==> r.None?
  {
    var input := ParseInput(lines);
    if input.None? {
      return None, [];
    }
    r, path := Solve(input.value);
  }

  /** `part2`: the same search on the unfolded burrow of depth four. */
  method Part2(lines: seq<string>) returns (r: Option<nat>, ghost path: seq<Move>)
    ensures r.Some? ==> ParseInput(lines).Some? && Solves(Initial(Unfold(ParseInput(lines).value)), path, r.value)
  {
    var input := ParseInput(lines);
    if input.None? {
      return None, [];
    }
    r, path := Solve(Unfold(input.value));
  }

  /** The sorted burrow of depth `n`: room `k` holds `n` crabs of its own
      kind. */
  function Sorted(n: nat): (input: Input)
    ensures InputShape(input) && |input.rooms[0]| == n
  {
    Input(seq(4, k requires 0 <= k < 4 => seq(n, _ => CrabOfRoom(k))))
  }

  /** The doc-test of `is_final`, for every depth (it checks `N = 2` and
      `N = 4`): the sorted burrow is final. */
  lemma SortedIsFinal(n: nat)
    ensures IsFinal(Initial(Sorted(n)))
  {
    var input := Sorted(n);
    forall k, d | 0 <= k < 4 && 0 <= d < n
      ensures DestRoom(input.rooms[k][d]) == k
    {
      DestRoomOfCrab(k);
    }
    InitialFinal(input);
  }
}
