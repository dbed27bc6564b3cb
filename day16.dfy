/**
 * Day 16: Packet Decoder. A hexadecimal transmission is a stream of bits
 * holding one packet: a 3-bit version, a 3-bit type id, then either a
 * literal number in 5-bit groups or an operator whose sub-packets are
 * framed by a bit length or by a count. `part1` sums the versions of the
 * packet tree, `part2` evaluates it as an expression.
 */
module Day16 {
  import opened Common

  /** `usize` arithmetic: `parse_number` shifts left, dropping bits past the 64th. */
  const Word: nat := 0x1_0000_0000_0000_0000

  datatype Operator = Sum | Prod | Min | Max | GreaterThan | LessThan | EqualTo

  datatype OperatorData = TotalLength | PacketCount

  datatype Packet = Packet(version: nat, kind: PacketKind)

  datatype PacketKind =
    | Literal(value: nat)
    | Operator(op: Operator, opData: OperatorData, arguments: seq<Packet>)

  // ---------------------------------------------------------------------
  // parse_input: the bit stream

  /**
   * The bit stream `parse_input` yields, lazily: the bits of the hex digits
   * up to the first character that is not one, and whether such a
   * character follows (pulling its bits panics).
   */
  datatype Stream = Stream(bits: seq<bool>, poisoned: bool)

  /** The value of a hex digit, matched on `c as u8` (the low byte of the code point); `None` panics. */
  function HexDigit(c: char): (r: Option<nat>)
    ensures r.Some? ==> r.value < 16
    ensures '0' <= c <= '9' ==> r == Some(c as int - '0' as int)
    ensures 'A' <= c <= 'F' ==> r == Some(c as int - 'A' as int + 10)
    ensures 'a' <= c <= 'f' ==> r.None?
  {
    var b := c as int % 256;
    if '0' as int <= b <= '9' as int then Some(b - '0' as int)
    else if 'A' as int <= b <= 'F' as int then Some(b - 'A' as int + 10)
    else None
  }

  /** `[bits & 8 != 0, bits & 4 != 0, bits & 2 != 0, bits & 1 != 0]`: the four bits of a digit, most significant first. */
  function Nibble(v: nat): (r: seq<bool>)
    requires v < 16
    ensures |r| == 4 && BitsValue(r) == v
  {
    var r := [(v / 8) % 2 == 1, (v / 4) % 2 == 1, (v / 2) % 2 == 1, v % 2 == 1];
    BitsValueFour(r[0], r[1], r[2], r[3]);
    assert 8 * ((v / 8) % 2) + 4 * ((v / 4) % 2) + 2 * ((v / 2) % 2) + v % 2 == v;
    r
  }

  /** The value of four bits, most significant first. */
  lemma BitsValueFour(a: bool, b: bool, c: bool, d: bool)
    ensures BitsValue([a, b, c, d])
         == 8 * (if a then 1 else 0) + 4 * (if b then 1 else 0) + 2 * (if c then 1 else 0) + (if d then 1 else 0)
  {
    assert [a][..0] == [];
    assert BitsValue([a]) == (if a then 1 else 0);
    assert [a, b][..1] == [a];
    assert BitsValue([a, b]) == 2 * (if a then 1 else 0) + (if b then 1 else 0);
    assert [a, b, c][..2] == [a, b];
    assert BitsValue([a, b, c]) == 4 * (if a then 1 else 0) + 2 * (if b then 1 else 0) + (if c then 1 else 0);
    assert [a, b, c, d][..3] == [a, b, c];
  }

  /** `parse_input`: the nibbles of the leading hex digits; poisoned where a non-hex character follows them. */
  function HexStream(input: string): (r: Stream)
    ensures |r.bits| % 4 == 0 && |r.bits| <= 4 * |input|
    ensures r.poisoned <==> exists i :: 0 <= i < |input| && HexDigit(input[i]).None?
    ensures !r.poisoned ==> |r.bits| == 4 * |input|
  {
    if input == [] then Stream([], false)
    else
      match HexDigit(input[0])
      case None => Stream([], true)
      case Some(v) =>
        var rest := HexStream(input[1..]);
        var nibble := Nibble(v);
        assert forall i :: 1 <= i < |input| ==> input[i] == input[1..][i - 1];
        FourMore(|rest.bits|);
        Stream(nibble + rest.bits, rest.poisoned)
  }

  lemma FourMore(n: nat)
    requires n % 4 == 0
    ensures (n + 4) % 4 == 0
  {
  }

  /** Digit `i` of an all-hex input occupies bits `4 * i` to `4 * i + 4` of the stream. */
  lemma {:induction false} HexStreamAt(input: string, i: nat)
    requires i < |input| && !HexStream(input).poisoned
    ensures HexDigit(input[i]).Some?
    ensures HexStream(input).bits[4 * i..4 * i + 4] == Nibble(HexDigit(input[i]).value)
  {
    var rest := HexStream(input[1..]);
    if i > 0 {
      HexStreamAt(input[1..], i - 1);
      var nibble := Nibble(HexDigit(input[0]).value);
      assert HexStream(input).bits == nibble + rest.bits;
      SliceAppend(nibble, rest.bits, 4 * i, 4 * i + 4);
    }
  }

  // ---------------------------------------------------------------------
  // Reading from the stream

  /**
   * The outcome of reading from the stream: the value read and the position
   * after it, or a panic.
   */
  datatype Parsed<T> = Ok(value: T, pos: nat) | Panic

  /** A cursor at `pos` inside a view of the stream that ends at `end` (`take(length)` narrows it). */
  predicate At(s: Stream, pos: nat, end: nat) {
    pos <= |s.bits| && pos <= end
  }

  /** The view of the whole stream: reading may reach the poisoned character. */
  function Whole(s: Stream): nat {
    |s.bits| + 1
  }

  /**
   * `take(k)`: up to `k` bits, fewer where the view or the stream ends first;
   * reading into a non-hex character panics.
   */
  function Take(s: Stream, pos: nat, end: nat, k: nat): (r: Parsed<seq<bool>>)
    requires At(s, pos, end)
    ensures r.Ok? ==> |r.value| <= k && r.pos == pos + |r.value| && At(s, r.pos, end) && r.value == s.bits[pos..r.pos]
    ensures r.Ok? && |r.value| < k ==> r.pos == end || (r.pos == |s.bits| && !s.poisoned)
    ensures pos + k <= end && pos + k <= |s.bits| ==> r == Ok(s.bits[pos..pos + k], pos + k)
    ensures r.Panic? <==> s.poisoned && pos + Common.Min(k, end - pos) > |s.bits|
  {
    var n := Common.Min(k, end - pos);
    if pos + n <= |s.bits| then Ok(s.bits[pos..pos + n], pos + n)
    else if s.poisoned then Panic
    else Ok(s.bits[pos..], |s.bits|)
  }

  /** The `fold` of `parse_number`: `(number << 1) | bit`, in 64-bit `usize`. */
  function Fold(bits: seq<bool>): (r: nat)
    ensures r < Word
  {
    if bits == [] then 0 else (2 * Fold(bits[..|bits| - 1]) + (if bits[|bits| - 1] then 1 else 0)) % Word
  }

  /** The fold is the big-endian value of the bits, cut to 64 bits. */
  lemma {:induction false} FoldValue(bits: seq<bool>)
    ensures Fold(bits) == BitsValue(bits) % Word
  {
    if bits != [] {
      var init := bits[..|bits| - 1];
      FoldValue(init);
      var v := BitsValue(init);
      var c := if bits[|bits| - 1] then 1 else 0;
      assert v == (v / Word) * Word + v % Word;
      assert 2 * v + c == 2 * (v / Word) * Word + (2 * (v % Word) + c);
      ModShift(2 * (v / Word), 2 * (v % Word) + c);
    }
  }

  lemma ModShift(q: nat, x: nat)
    ensures (q * Word + x) % Word == x % Word
  {
  }

  /** A value of `k` bits is below `2^k`. */
  lemma {:induction false} BitsValueBound(bits: seq<bool>)
    ensures BitsValue(bits) < Pow2(|bits|)
  {
    if bits != [] {
      BitsValueBound(bits[..|bits| - 1]);
    }
  }

  /** `parse_number(stream, k)`: the big-endian value of the next `k` bits (fewer where the stream runs out). */
  function ParseNumber(s: Stream, pos: nat, end: nat, k: nat): (r: Parsed<nat>)
    requires At(s, pos, end)
    ensures r.Ok? <==> Take(s, pos, end, k).Ok?
    ensures r.Ok? ==> r.pos == Take(s, pos, end, k).pos && At(s, r.pos, end)
    ensures r.Ok? && k <= 64 ==> r.value == BitsValue(Take(s, pos, end, k).value) && r.value < Pow2(k)
  {
    match Take(s, pos, end, k)
    case Panic => Panic
    case Ok(bits, p) =>
      FoldValue(bits);
      BitsValueBound(bits);
      assert k <= 64 ==> Pow2(|bits|) <= Pow2(k) <= Word by {
        if k <= 64 {
          PowMono(|bits|, k);
          PowMono(k, 64);
        }
      }
      Ok(Fold(bits), p)
  }

  lemma {:induction false} PowMono(a: nat, b: nat)
    requires a <= b
    ensures Pow2(a) <= Pow2(b)
    ensures b == 64 ==> Pow2(b) == Word
    decreases b
  {
    if a < b {
      PowMono(a, b - 1);
    }
    if b == 64 {
      Pow64();
    }
  }

  lemma Pow64()
    ensures Pow2(64) == Word
  {
    assert Pow2(8) == 0x100;
    assert Pow2(16) == 0x1_0000 by { PowAdd(8, 8); }
    assert Pow2(32) == 0x1_0000_0000 by { PowAdd(16, 16); }
    PowAdd(32, 32);
  }

  lemma {:induction false} PowAdd(a: nat, b: nat)
    ensures Pow2(a + b) == Pow2(a) * Pow2(b)
    decreases b
  {
    if b > 0 {
      PowAdd(a, b - 1);
    }
  }

  // ---------------------------------------------------------------------
  // parse_literal

  /**
   * The payload bits of a literal: 5-bit groups up to and including the
   * first whose lead bit is 0, the four bits after each lead bit kept.
   * A group cut short panics.
   */
  function LiteralGroups(s: Stream, pos: nat, end: nat): (r: Parsed<seq<bool>>)
    requires At(s, pos, end)
    ensures r.Ok? ==> pos < r.pos && At(s, r.pos, end) && |r.value| % 4 == 0 && 5 * |r.value| == 4 * (r.pos - pos)
    decreases end - pos
  {
    match Take(s, pos, end, 5)
    case Panic => Panic
    case Ok(group, p) =>
      if |group| < 5 then Panic
      else if !group[0] then Ok(group[1..], p)
      else
        match LiteralGroups(s, p, end)
        case Panic => Panic
        case Ok(rest, q) => Ok(group[1..] + rest, q)
  }

  /** `parse_literal`: the groups read in a loop, then their payload through `parse_number`. */
  method ParseLiteral(s: Stream, pos: nat, end: nat) returns (r: Parsed<nat>)
    requires At(s, pos, end)
    ensures r.Ok? <==> LiteralGroups(s, pos, end).Ok?
    ensures r.Ok? ==> r == Ok(Fold(LiteralGroups(s, pos, end).value), LiteralGroups(s, pos, end).pos)
  {
    var bitList: seq<bool> := [];
    var p := pos;
    PrependNothing(LiteralGroups(s, pos, end));
    while true
      invariant At(s, p, end) && pos <= p
      invariant LiteralGroups(s, pos, end) == Prepend(bitList, LiteralGroups(s, p, end))
      decreases end - p
    {
      var bits := Take(s, p, end, 5);
      if bits.Panic? || |bits.value| < 5 {
        return Panic;
      }
      PrependAppend(bitList, bits.value[1..], LiteralGroups(s, bits.pos, end));
      bitList := bitList + bits.value[1..];
      p := bits.pos;
      if !bits.value[0] {
        assert LiteralGroups(s, pos, end) == Ok(bitList, p);
        return Ok(Fold(bitList), p);
      }
    }
  }

  /** Reading `prefix` before the rest of a literal. */
  function Prepend(prefix: seq<bool>, r: Parsed<seq<bool>>): Parsed<seq<bool>> {
    match r
    case Panic => Panic
    case Ok(rest, q) => Ok(prefix + rest, q)
  }

  lemma PrependNothing(r: Parsed<seq<bool>>)
    ensures Prepend([], r) == r
  {
    if r.Ok? {
      assert [] + r.value == r.value;
    }
  }

  lemma PrependAppend(a: seq<bool>, b: seq<bool>, r: Parsed<seq<bool>>)
    ensures Prepend(a, Prepend(b, r)) == Prepend(a + b, r)
  {
    if r.Ok? {
      assert a + (b + r.value) == (a + b) + r.value;
    }
  }

  // ---------------------------------------------------------------------
  // parse_packet_kind and parse_packet

  /** The operator a type id names; `None` for the literal id 4 and for ids past 7, which panic. */
  function OperatorOf(id: nat): (r: Option<Operator>)
    ensures r.None? <==> id == 4 || id > 7
  {
    match id
    case 0 => Some(Sum)
    case 1 => Some(Prod)
    case 2 => Some(Min)
    case 3 => Some(Max)
    case 5 => Some(GreaterThan)
    case 6 => Some(LessThan)
    case 7 => Some(EqualTo)
    case _ => None
  }

  /** `parse_packet`: the version, then the kind. */
  function ParsePacket(s: Stream, pos: nat, end: nat): (r: Parsed<Packet>)
    requires At(s, pos, end)
    ensures r.Ok? ==> pos < r.pos && At(s, r.pos, end) && r.value.version < 8
    decreases end - pos, 3
  {
    match ParseNumber(s, pos, end, 3)
    case Panic => Panic
    case Ok(version, p1) =>
      match ParseKind(s, p1, end)
      case Panic => Panic
      case Ok(kind, p2) => Ok(Packet(version, kind), p2)
  }

  /** `parse_packet_kind`: the type id, then a literal or an operator with its arguments; unknown ids panic. */
  function ParseKind(s: Stream, pos: nat, end: nat): (r: Parsed<PacketKind>)
    requires At(s, pos, end)
    ensures r.Ok? ==> pos < r.pos && At(s, r.pos, end)
    decreases end - pos, 2
  {
    match ParseNumber(s, pos, end, 3)
    case Panic => Panic
    case Ok(id, p1) =>
      if id == 4 then
        match LiteralGroups(s, p1, end)
        case Panic => Panic
        case Ok(payload, p2) => Ok(Literal(Fold(payload)), p2)
      else
        match OperatorOf(id)
        case None => Panic
        case Some(op) =>
          match ParseArguments(s, p1, end)
          case Panic => Panic
          case Ok(framed, p2) => Ok(Operator(op, framed.0, framed.1), p2)
  }

  /**
   * The `op_data` block: the length type bit (none left panics), then the
   * arguments framed by a bit length or by a count.
   */
  function ParseArguments(s: Stream, pos: nat, end: nat): (r: Parsed<(OperatorData, seq<Packet>)>)
    requires At(s, pos, end)
    ensures r.Ok? ==> pos < r.pos && At(s, r.pos, end)
    decreases end - pos, 1
  {
    if pos == end || pos == |s.bits| then Panic
    else if !s.bits[pos] then
      match ParseLengthFramed(s, pos + 1, end)
      case Panic => Panic
      case Ok(arguments, p) => Ok((TotalLength, arguments), p)
    else
      match ParseCountFramed(s, pos + 1, end)
      case Panic => Panic
      case Ok(arguments, p) => Ok((PacketCount, arguments), p)
  }

  /** A 15-bit bit length, then packets read from a view of that many bits (`take(length)`). */
  function ParseLengthFramed(s: Stream, pos: nat, end: nat): (r: Parsed<seq<Packet>>)
    requires At(s, pos, end)
    ensures r.Ok? ==> pos <= r.pos && At(s, r.pos, end)
    decreases end - pos, 5
  {
    match ParseNumber(s, pos, end, 15)
    case Panic => Panic
    case Ok(length, p) => ParseUntil(s, p, Common.Min(p + length, end))
  }

  /** An 11-bit count, then that many packets. */
  function ParseCountFramed(s: Stream, pos: nat, end: nat): (r: Parsed<seq<Packet>>)
    requires At(s, pos, end)
    ensures r.Ok? ==> pos <= r.pos && At(s, r.pos, end)
    decreases end - pos, 5
  {
    match ParseNumber(s, pos, end, 11)
    case Panic => Panic
    case Ok(count, p) => ParseCount(s, p, end, count)
  }

  /** The `TotalLength` loop: packets while the view has a bit left (`peek().is_some()`). */
  function ParseUntil(s: Stream, pos: nat, end: nat): (r: Parsed<seq<Packet>>)
    requires At(s, pos, end)
    ensures r.Ok? ==> pos <= r.pos && At(s, r.pos, end)
    decreases end - pos, 4
  {
    if pos == end then Ok([], pos)
    else if pos == |s.bits| then (if s.poisoned then Panic else Ok([], pos))
    else
      match ParsePacket(s, pos, end)
      case Panic => Panic
      case Ok(first, p) =>
        match ParseUntil(s, p, end)
        case Panic => Panic
        case Ok(rest, q) => Ok([first] + rest, q)
  }

  /** The `PacketCount` loop: exactly `count` packets. */
  function ParseCount(s: Stream, pos: nat, end: nat, count: nat): (r: Parsed<seq<Packet>>)
    requires At(s, pos, end)
    ensures r.Ok? ==> pos <= r.pos && At(s, r.pos, end) && |r.value| == count
    decreases end - pos, 4, count
  {
    if count == 0 then Ok([], pos)
    else
      match ParsePacket(s, pos, end)
      case Panic => Panic
      case Ok(first, p) =>
        match ParseCount(s, p, end, count - 1)
        case Panic => Panic
        case Ok(rest, q) => Ok([first] + rest, q)
  }

  /** The whole transmission: the packet read from the start of the input. */
  function Decode(input: string): (r: Parsed<Packet>)
    ensures r.Ok? ==> 0 < r.pos <= 4 * |input| && r.value.version < 8
  {
    var s := HexStream(input);
    ParsePacket(s, 0, Whole(s))
  }

  // ---------------------------------------------------------------------
  // part1: the version sum

  /** The number of packets in a packet tree. */
  function Size(p: Packet): nat {
    match p.kind
    case Literal(_) => 1
    case Operator(_, _, arguments) => 1 + SizeAll(arguments)
  }

  function SizeAll(ps: seq<Packet>): nat {
    if ps == [] then 0 else Size(ps[0]) + SizeAll(ps[1..])
  }

  /** The sum of the versions of every packet in the tree. */
  function Versions(p: Packet): nat {
    match p.kind
    case Literal(_) => p.version
    case Operator(_, _, arguments) => p.version + VersionsAll(arguments)
  }

  function VersionsAll(ps: seq<Packet>): nat {
    if ps == [] then 0 else Versions(ps[0]) + VersionsAll(ps[1..])
  }

  /** Sizes and version sums add up over a split of the work list. */
  lemma {:induction false} AllAppend(a: seq<Packet>, b: seq<Packet>)
    ensures SizeAll(a + b) == SizeAll(a) + SizeAll(b)
    ensures VersionsAll(a + b) == VersionsAll(a) + VersionsAll(b)
  {
    if a == [] {
      assert a + b == b;
    } else {
      assert (a + b)[1..] == a[1..] + b;
      AllAppend(a[1..], b);
    }
  }

  /** `part1`: pops packets off a work list, adding each version and pushing its arguments. */
  method Part1(input: string) returns (r: Option<nat>)
    ensures r.None? <==> Decode(input).Panic?
    ensures r.Some? ==> r.value == Versions(Decode(input).value)
  {
    var parsed := Decode(input);
    if parsed.Panic? {
      return None;
    }
    var toProcess := [parsed.value];
    var sum := 0;
    assert VersionsAll(toProcess) == Versions(parsed.value) by {
      assert toProcess[1..] == [];
    }
    while toProcess != []
      invariant sum + VersionsAll(toProcess) == Versions(parsed.value)
      decreases SizeAll(toProcess)
    {
      var rest := toProcess[..|toProcess| - 1];
      var packet := toProcess[|toProcess| - 1];
      assert toProcess == rest + [packet];
      AllAppend(rest, [packet]);
      assert [packet][1..] == [];
      sum := sum + packet.version;
      match packet.kind {
        case Literal(_) =>
          toProcess := rest;
        case Operator(_, _, arguments) =>
          AllAppend(rest, arguments);
          toProcess := rest + arguments;
      }
    }
    return Some(sum);
  }

  // ---------------------------------------------------------------------
  // eval

  predicate IsComparison(op: Operator) {
    op.GreaterThan? || op.LessThan? || op.EqualTo?
  }

  function Total(vs: seq<nat>): nat {
    if vs == [] then 0 else vs[0] + Total(vs[1..])
  }

  function Product(vs: seq<nat>): nat {
    if vs == [] then 1 else vs[0] * Product(vs[1..])
  }

  /** `min().unwrap()`: the least value, which is one of them. */
  function Least(vs: seq<nat>): (r: nat)
    requires vs != []
    ensures r in vs && forall i :: 0 <= i < |vs| ==> r <= vs[i]
  {
    if |vs| == 1 then vs[0] else Common.Min(vs[0], Least(vs[1..])) as nat
  }

  /** `max().unwrap()`: the greatest value, which is one of them. */
  function Greatest(vs: seq<nat>): (r: nat)
    requires vs != []
    ensures r in vs && forall i :: 0 <= i < |vs| ==> r >= vs[i]
  {
    if |vs| == 1 then vs[0] else Common.Max(vs[0], Greatest(vs[1..])) as nat
  }

  /** The 1 or 0 of a comparison packet. */
  function Compare(op: Operator, first: nat, second: nat): (r: nat)
    requires IsComparison(op)
    ensures r == 1 <==> (op.GreaterThan? && first > second) || (op.LessThan? && first < second) || (op.EqualTo? && first == second)
    ensures r <= 1
  {
    match op
    case GreaterThan => if first > second then 1 else 0
    case LessThan => if first < second then 1 else 0
    case EqualTo => if first == second then 1 else 0
  }

  /**
   * `eval`: `None` where it panics — `min`/`max` of no arguments, or a
   * comparison with fewer than two. Comparisons evaluate only their first
   * two arguments; the other operators evaluate all of them.
   */
  function Eval(p: Packet): (r: Option<nat>)
    ensures r.Some? && p.kind.Literal? ==> r.value == p.kind.value
    ensures r.Some? && p.kind.Operator? && IsComparison(p.kind.op) ==> r.value <= 1
  {
    match p.kind
    case Literal(value) => Some(value)
    case Operator(op, _, arguments) =>
      if IsComparison(op) then
        if |arguments| < 2 then None
        else
          match (Eval(arguments[0]), Eval(arguments[1]))
          case (Some(first), Some(second)) => Some(Compare(op, first, second))
          case _ => None
      else
        match EvalAll(arguments)
        case None => None
        case Some(vs) =>
          match op
          case Sum => Some(Total(vs))
          case Prod => Some(Product(vs))
          case Min => if vs == [] then None else Some(Least(vs))
          case Max => if vs == [] then None else Some(Greatest(vs))
  }

  /** `arguments.iter().map(eval)`: every value, or `None` if one of them panics. */
  function EvalAll(ps: seq<Packet>): (r: Option<seq<nat>>)
    ensures r.Some? ==> |r.value| == |ps| && forall i :: 0 <= i < |ps| ==> Eval(ps[i]) == Some(r.value[i])
    ensures r.None? ==> exists i :: 0 <= i < |ps| && Eval(ps[i]).None?
  {
    if ps == [] then Some([])
    else
      match (Eval(ps[0]), EvalAll(ps[1..]))
      case (Some(v), Some(vs)) => Some([v] + vs)
      case _ => None
  }

  /** The packets `eval` does not panic on, stated without evaluating. */
  predicate Evaluable(p: Packet) {
    match p.kind
    case Literal(_) => true
    case Operator(op, _, arguments) =>
      if IsComparison(op) then |arguments| >= 2 && Evaluable(arguments[0]) && Evaluable(arguments[1])
      else (op.Min? || op.Max? ==> arguments != []) && EvaluableAll(arguments)
  }

  predicate EvaluableAll(ps: seq<Packet>) {
    ps == [] || (Evaluable(ps[0]) && EvaluableAll(ps[1..]))
  }

  /** `eval` panics exactly on the packets that are not evaluable. */
  lemma {:induction false} EvalDefined(p: Packet)
    ensures Eval(p).Some? <==> Evaluable(p)
  {
    match p.kind
    case Literal(_) =>
    case Operator(op, _, arguments) =>
      if IsComparison(op) {
        if |arguments| >= 2 {
          EvalDefined(arguments[0]);
          EvalDefined(arguments[1]);
        }
      } else {
        EvalAllDefined(arguments);
      }
  }

  lemma {:induction false} EvalAllDefined(ps: seq<Packet>)
    ensures EvalAll(ps).Some? <==> EvaluableAll(ps)
  {
    if ps != [] {
      EvalDefined(ps[0]);
      EvalAllDefined(ps[1..]);
    }
  }

  /** `part2`: the value of the transmission; `None` where decoding or evaluation panics. */
  function Part2(input: string): (r: Option<nat>)
    ensures r.Some? <==> Decode(input).Ok? && Evaluable(Decode(input).value)
  {
    match Decode(input)
    case Panic => None
    case Ok(packet, _) =>
      EvalDefined(packet);
      Eval(packet)
  }

  // ---------------------------------------------------------------------
  // The transmitter's side: encoding a packet, and decoding it back

  /** The low `k` bits of `v`, most significant first. */
  function NumBits(v: nat, k: nat): (r: seq<bool>)
    ensures |r| == k
  {
    if k == 0 then [] else NumBits(v / 2, k - 1) + [v % 2 == 1]
  }

  lemma {:induction false} NumBitsValue(v: nat, k: nat)
    requires v < Pow2(k)
    ensures BitsValue(NumBits(v, k)) == v
  {
    if k > 0 {
      NumBitsValue(v / 2, k - 1);
      var r := NumBits(v, k);
      assert r[..|r| - 1] == NumBits(v / 2, k - 1);
    }
  }

  /** A literal's payload in 5-bit groups, all but the last marked to continue. */
  function Groups(payload: seq<bool>): (r: seq<bool>)
    ensures |r| == |payload| + (|payload| + 3) / 4 + (if payload == [] then 1 else 0)
    decreases |payload|
  {
    if |payload| <= 4 then [false] + payload
    else [true] + payload[..4] + Groups(payload[4..])
  }

  /** The type id of an operator, the inverse of `OperatorOf`. */
  function OperatorId(op: Operator): (id: nat)
    ensures OperatorOf(id) == Some(op)
  {
    match op
    case Sum => 0
    case Prod => 1
    case Min => 2
    case Max => 3
    case GreaterThan => 5
    case LessThan => 6
    case EqualTo => 7
  }

  /** A packet as a transmitter sends it: the 3-bit version, then its kind. */
  function Encode(p: Packet): (r: seq<bool>)
    ensures |r| > 6
    decreases p, 0
  {
    NumBits(p.version, 3) + EncodeKind(p.kind)
  }

  /** The type id, then a literal in sixteen groups (enough for any `usize`) or the framed arguments. */
  function EncodeKind(kind: PacketKind): (r: seq<bool>)
    ensures |r| > 3
    decreases kind, 0
  {
    match kind
    case Literal(value) => NumBits(4, 3) + Groups(NumBits(value, 64))
    case Operator(op, opData, arguments) => NumBits(OperatorId(op), 3) + EncodeArguments(opData, arguments)
  }

  /** The length type bit, then the 15-bit bit length or the 11-bit count, then the arguments. */
  function EncodeArguments(opData: OperatorData, arguments: seq<Packet>): (r: seq<bool>)
    decreases arguments, 2
  {
    match opData
    case TotalLength => [false] + (NumBits(|EncodeAll(arguments)|, 15) + EncodeAll(arguments))
    case PacketCount => [true] + (NumBits(|arguments|, 11) + EncodeAll(arguments))
  }

  function EncodeAll(ps: seq<Packet>): seq<bool>
    decreases ps, 0
  {
    if ps == [] then [] else Encode(ps[0]) + EncodeAll(ps[1..])
  }

  /** The packets whose fields fit their widths: 3-bit versions, 64-bit literals, 15-bit lengths, 11-bit counts. */
  predicate WellFormed(p: Packet) {
    p.version < 8 && WellFormedKind(p.kind)
  }

  predicate WellFormedKind(kind: PacketKind) {
    match kind
    case Literal(value) => value < Word
    case Operator(_, TotalLength, arguments) => |EncodeAll(arguments)| < Pow2(15) && WellFormedAll(arguments)
    case Operator(_, PacketCount, arguments) => |arguments| < Pow2(11) && WellFormedAll(arguments)
  }

  predicate WellFormedAll(ps: seq<Packet>) {
    ps == [] || (WellFormed(ps[0]) && WellFormedAll(ps[1..]))
  }

  /** The stream holds the bits `w` from `pos` on. */
  predicate Holds(s: Stream, pos: nat, w: seq<bool>) {
    pos + |w| <= |s.bits| && s.bits[pos..pos + |w|] == w
  }

  lemma HoldsSplit(s: Stream, pos: nat, a: seq<bool>, b: seq<bool>)
    requires Holds(s, pos, a + b)
    ensures Holds(s, pos, a) && Holds(s, pos + |a|, b)
  {
    assert s.bits[pos..pos + |a|] == (a + b)[..|a|];
    assert s.bits[pos + |a|..pos + |a| + |b|] == (a + b)[|a|..];
  }

  /** `parse_number` reads back a number written in `k` bits. */
  lemma NumberRoundTrip(s: Stream, pos: nat, end: nat, v: nat, k: nat)
    requires At(s, pos, end) && k <= 64 && v < Pow2(k)
    requires Holds(s, pos, NumBits(v, k)) && pos + k <= end
    ensures ParseNumber(s, pos, end, k) == Ok(v, pos + k)
  {
    NumBitsValue(v, k);
  }

  // One step of each reader, stated on its own so that the round-trip
  // proofs below never unfold a reader themselves.

  /** A group whose lead bit is set is followed by more groups. */
  lemma GroupStep(s: Stream, pos: nat, end: nat, group: seq<bool>, rest: seq<bool>, q: nat)
    requires At(s, pos, end) && |group| == 5 && group[0]
    requires Take(s, pos, end, 5) == Ok(group, pos + 5)
    requires LiteralGroups(s, pos + 5, end) == Ok(rest, q)
    ensures LiteralGroups(s, pos, end) == Ok(group[1..] + rest, q)
  {
  }

  lemma LiteralStep(s: Stream, pos: nat, end: nat, p1: nat, payload: seq<bool>, p2: nat)
    requires At(s, pos, end)
    requires ParseNumber(s, pos, end, 3) == Ok(4, p1)
    requires LiteralGroups(s, p1, end) == Ok(payload, p2)
    ensures ParseKind(s, pos, end) == Ok(Literal(Fold(payload)), p2)
  {
  }

  lemma OperatorStep(s: Stream, pos: nat, end: nat, p1: nat, op: Operator, opData: OperatorData, arguments: seq<Packet>, p2: nat)
    requires At(s, pos, end)
    requires ParseNumber(s, pos, end, 3) == Ok(OperatorId(op), p1)
    requires ParseArguments(s, p1, end) == Ok((opData, arguments), p2)
    ensures ParseKind(s, pos, end) == Ok(Operator(op, opData, arguments), p2)
  {
  }

  lemma PacketStep(s: Stream, pos: nat, end: nat, version: nat, p1: nat, kind: PacketKind, p2: nat)
    requires At(s, pos, end)
    requires ParseNumber(s, pos, end, 3) == Ok(version, p1)
    requires ParseKind(s, p1, end) == Ok(kind, p2)
    ensures ParsePacket(s, pos, end) == Ok(Packet(version, kind), p2)
  {
  }

  lemma LengthStep(s: Stream, pos: nat, end: nat, length: nat, p1: nat, view: nat, arguments: seq<Packet>, p2: nat)
    requires At(s, pos, end) && pos < end && pos < |s.bits| && !s.bits[pos]
    requires ParseNumber(s, pos + 1, end, 15) == Ok(length, p1) && view == p1 + length <= end
    requires ParseUntil(s, p1, view) == Ok(arguments, p2)
    ensures ParseArguments(s, pos, end) == Ok((TotalLength, arguments), p2)
  {
    assert Common.Min(p1 + length, end) == view;
    assert ParseLengthFramed(s, pos + 1, end) == Ok(arguments, p2);
  }

  lemma CountedStep(s: Stream, pos: nat, end: nat, count: nat, p1: nat, arguments: seq<Packet>, p2: nat)
    requires At(s, pos, end) && pos < end && pos < |s.bits| && s.bits[pos]
    requires ParseNumber(s, pos + 1, end, 11) == Ok(count, p1)
    requires ParseCount(s, p1, end, count) == Ok(arguments, p2)
    ensures ParseArguments(s, pos, end) == Ok((PacketCount, arguments), p2)
  {
    assert ParseCountFramed(s, pos + 1, end) == Ok(arguments, p2);
  }

  /** One turn of the `TotalLength` loop. */
  lemma UntilStep(s: Stream, pos: nat, end: nat, first: Packet, mid: nat, rest: seq<Packet>, q: nat)
    requires At(s, pos, end) && pos < end && pos < |s.bits|
    requires ParsePacket(s, pos, end) == Ok(first, mid)
    requires ParseUntil(s, mid, end) == Ok(rest, q)
    ensures ParseUntil(s, pos, end) == Ok([first] + rest, q)
  {
  }

  /** One turn of the `PacketCount` loop. */
  lemma CountStep(s: Stream, pos: nat, end: nat, count: nat, first: Packet, mid: nat, rest: seq<Packet>, q: nat)
    requires At(s, pos, end) && count > 0
    requires ParsePacket(s, pos, end) == Ok(first, mid)
    requires ParseCount(s, mid, end, count - 1) == Ok(rest, q)
    ensures ParseCount(s, pos, end, count) == Ok([first] + rest, q)
  {
  }

  /** `parse_literal`'s groups give back the payload they carry. */
  lemma {:induction false} GroupsRoundTrip(s: Stream, pos: nat, end: nat, payload: seq<bool>, q: nat)
    requires At(s, pos, end) && |payload| % 4 == 0 && payload != []
    requires Holds(s, pos, Groups(payload)) && q == pos + |Groups(payload)| && q <= end
    ensures LiteralGroups(s, pos, end) == Ok(payload, q)
    decreases |payload|
  {
    var group := if |payload| > 4 then [true] + payload[..4] else [false] + payload;
    var rest := if |payload| > 4 then Groups(payload[4..]) else [];
    assert Groups(payload) == group + rest;
    HoldsSplit(s, pos, group, rest);
    assert Take(s, pos, end, 5) == Ok(group, pos + 5);
    if |payload| > 4 {
      GroupsRoundTrip(s, pos + 5, end, payload[4..], q);
      GroupStep(s, pos, end, group, payload[4..], q);
      assert group[1..] + payload[4..] == payload;
    }
  }

  /** A literal reads back as the value it was sent with. */
  lemma LiteralRoundTrip(s: Stream, pos: nat, end: nat, value: nat, q: nat)
    requires At(s, pos, end) && value < Word
    requires Holds(s, pos, Groups(NumBits(value, 64))) && q == pos + |Groups(NumBits(value, 64))| && q <= end
    ensures LiteralGroups(s, pos, end) == Ok(NumBits(value, 64), q)
    ensures Fold(NumBits(value, 64)) == value
  {
    GroupsRoundTrip(s, pos, end, NumBits(value, 64), q);
    Pow64();
    FoldNumBits(value, 64);
  }

  /** The `k` bits of a value below both `2^k` and `2^64` fold back to it. */
  lemma FoldNumBits(value: nat, k: nat)
    requires value < Word && value < Pow2(k)
    ensures Fold(NumBits(value, k)) == value
  {
    NumBitsValue(value, k);
    FoldValue(NumBits(value, k));
  }

  /**
   * Decoding inverts encoding: wherever the stream holds the encoding of a
   * well-formed packet inside the view, `parse_packet` reads back that
   * packet and stops right after it.
   */
  lemma {:induction false} RoundTrip(s: Stream, pos: nat, end: nat, p: Packet)
    requires At(s, pos, end) && WellFormed(p)
    requires Holds(s, pos, Encode(p)) && pos + |Encode(p)| <= end
    ensures ParsePacket(s, pos, end) == Ok(p, pos + |Encode(p)|)
    decreases p, 1
  {
    var q := pos + |Encode(p)|;
    assert q == pos + 3 + |EncodeKind(p.kind)|;
    HeaderRoundTrip(s, pos, end, p.version, EncodeKind(p.kind));
    KindRoundTrip(s, pos + 3, end, p.kind, q);
    PacketStep(s, pos, end, p.version, pos + 3, p.kind, q);
  }

  lemma {:induction false} KindRoundTrip(s: Stream, pos: nat, end: nat, kind: PacketKind, q: nat)
    requires At(s, pos, end) && WellFormedKind(kind)
    requires Holds(s, pos, EncodeKind(kind)) && q == pos + |EncodeKind(kind)| && q <= end
    ensures ParseKind(s, pos, end) == Ok(kind, q)
    decreases kind, 2
  {
    match kind {
      case Literal(value) =>
        LiteralKindRoundTrip(s, pos, end, value, q);
      case Operator(op, opData, arguments) =>
        OperatorRoundTrip(s, pos, end, op, opData, arguments, q);
    }
  }

  lemma LiteralKindRoundTrip(s: Stream, pos: nat, end: nat, value: nat, q: nat)
    requires At(s, pos, end) && value < Word
    requires Holds(s, pos, EncodeKind(Literal(value))) && q == pos + |EncodeKind(Literal(value))| && q <= end
    ensures ParseKind(s, pos, end) == Ok(Literal(value), q)
  {
    var payload := NumBits(value, 64);
    assert EncodeKind(Literal(value)) == NumBits(4, 3) + Groups(payload);
    HoldsSplit(s, pos, NumBits(4, 3), Groups(payload));
    assert Pow2(3) == 8;
    NumberRoundTrip(s, pos, end, 4, 3);
    LiteralRoundTrip(s, pos + 3, end, value, q);
    LiteralStep(s, pos, end, pos + 3, payload, q);
  }

  lemma {:induction false} OperatorRoundTrip(s: Stream, pos: nat, end: nat, op: Operator, opData: OperatorData, arguments: seq<Packet>, q: nat)
    requires At(s, pos, end) && WellFormedKind(Operator(op, opData, arguments))
    requires Holds(s, pos, EncodeKind(Operator(op, opData, arguments)))
    requires q == pos + |EncodeKind(Operator(op, opData, arguments))| && q <= end
    ensures ParseKind(s, pos, end) == Ok(Operator(op, opData, arguments), q)
    decreases arguments, 2
  {
    var framed := EncodeArguments(opData, arguments);
    assert EncodeKind(Operator(op, opData, arguments)) == NumBits(OperatorId(op), 3) + framed;
    HeaderRoundTrip(s, pos, end, OperatorId(op), framed);
    if opData.TotalLength? {
      LengthRoundTrip(s, pos + 3, end, arguments, q);
    } else {
      CountRoundTrip(s, pos + 3, end, arguments, q);
    }
    OperatorStep(s, pos, end, pos + 3, op, opData, arguments, q);
  }

  /** A three-bit field followed by `rest` reads back as its value, leaving `rest` at `pos + 3`. */
  lemma HeaderRoundTrip(s: Stream, pos: nat, end: nat, v: nat, rest: seq<bool>)
    requires At(s, pos, end) && v < 8
    requires Holds(s, pos, NumBits(v, 3) + rest) && pos + 3 + |rest| <= end
    ensures ParseNumber(s, pos, end, 3) == Ok(v, pos + 3) && Holds(s, pos + 3, rest)
  {
    HoldsSplit(s, pos, NumBits(v, 3), rest);
    assert Pow2(3) == 8;
    NumberRoundTrip(s, pos, end, v, 3);
  }

  /** The length type bit at `pos` of a stream that holds `[bit] + rest` there. */
  lemma LeadBit(s: Stream, pos: nat, bit: bool, rest: seq<bool>)
    requires Holds(s, pos, [bit] + rest)
    ensures pos < |s.bits| && s.bits[pos] == bit && Holds(s, pos + 1, rest)
  {
    HoldsSplit(s, pos, [bit], rest);
    assert s.bits[pos..pos + 1][0] == s.bits[pos];
  }

  lemma {:induction false} LengthRoundTrip(s: Stream, pos: nat, end: nat, arguments: seq<Packet>, q: nat)
    requires At(s, pos, end) && WellFormedAll(arguments) && |EncodeAll(arguments)| < Pow2(15)
    requires Holds(s, pos, EncodeArguments(TotalLength, arguments))
    requires q == pos + |EncodeArguments(TotalLength, arguments)| && q <= end
    ensures ParseArguments(s, pos, end) == Ok((TotalLength, arguments), q)
    decreases arguments, 1
  {
    var body := EncodeAll(arguments);
    var length := NumBits(|body|, 15);
    assert EncodeArguments(TotalLength, arguments) == [false] + (length + body);
    assert q == pos + 16 + |body|;
    LeadBit(s, pos, false, length + body);
    HoldsSplit(s, pos + 1, length, body);
    NumberRoundTrip(s, pos + 1, end, |body|, 15);
    RoundTripUntil(s, pos + 16, q, arguments);
    LengthStep(s, pos, end, |body|, pos + 16, q, arguments, q);
  }

  lemma {:induction false} CountRoundTrip(s: Stream, pos: nat, end: nat, arguments: seq<Packet>, q: nat)
    requires At(s, pos, end) && WellFormedAll(arguments) && |arguments| < Pow2(11)
    requires Holds(s, pos, EncodeArguments(PacketCount, arguments))
    requires q == pos + |EncodeArguments(PacketCount, arguments)| && q <= end
    ensures ParseArguments(s, pos, end) == Ok((PacketCount, arguments), q)
    decreases arguments, 1
  {
    var body := EncodeAll(arguments);
    var count := NumBits(|arguments|, 11);
    assert EncodeArguments(PacketCount, arguments) == [true] + (count + body);
    LeadBit(s, pos, true, count + body);
    HoldsSplit(s, pos + 1, count, body);
    NumberRoundTrip(s, pos + 1, end, |arguments|, 11);
    RoundTripCount(s, pos + 12, end, arguments, |arguments|, q);
    CountedStep(s, pos, end, |arguments|, pos + 12, arguments, q);
  }

  /** A stream holding the encoding of some packets holds that of the first, then that of the rest. */
  lemma HoldsFirst(s: Stream, pos: nat, ps: seq<Packet>)
    requires WellFormedAll(ps) && Holds(s, pos, EncodeAll(ps)) && ps != []
    ensures WellFormed(ps[0]) && WellFormedAll(ps[1..]) && ps == [ps[0]] + ps[1..]
    ensures |EncodeAll(ps)| == |Encode(ps[0])| + |EncodeAll(ps[1..])|
    ensures Holds(s, pos, Encode(ps[0])) && Holds(s, pos + |Encode(ps[0])|, EncodeAll(ps[1..]))
  {
    HoldsSplit(s, pos, Encode(ps[0]), EncodeAll(ps[1..]));
    HeadTail(ps);
  }

  /** A length-framed argument list reads back when the view ends right after it. */
  lemma {:induction false} RoundTripUntil(s: Stream, pos: nat, end: nat, ps: seq<Packet>)
    requires WellFormedAll(ps) && Holds(s, pos, EncodeAll(ps)) && end == pos + |EncodeAll(ps)|
    ensures ParseUntil(s, pos, end) == Ok(ps, end)
    decreases ps, 0
  {
    if ps != [] {
      var mid := pos + |Encode(ps[0])|;
      HoldsFirst(s, pos, ps);
      RoundTrip(s, pos, end, ps[0]);
      RoundTripUntil(s, mid, end, ps[1..]);
      UntilStep(s, pos, end, ps[0], mid, ps[1..], end);
    }
  }

  /** A counted argument list reads back. */
  lemma {:induction false} RoundTripCount(s: Stream, pos: nat, end: nat, ps: seq<Packet>, count: nat, q: nat)
    requires WellFormedAll(ps) && Holds(s, pos, EncodeAll(ps))
    requires count == |ps| && q == pos + |EncodeAll(ps)| && q <= end
    ensures ParseCount(s, pos, end, count) == Ok(ps, q)
    decreases ps, 0
  {
    if ps != [] {
      var mid := pos + |Encode(ps[0])|;
      HoldsFirst(s, pos, ps);
      RoundTrip(s, pos, end, ps[0]);
      RoundTripCount(s, mid, end, ps[1..], count - 1, q);
      CountStep(s, pos, end, count, ps[0], mid, ps[1..], q);
    }
  }

  /** Decoding a transmission that carries an encoded packet gives that packet back, and its value. */
  lemma DecodeEncoded(input: string, p: Packet)
    requires WellFormed(p) && Holds(HexStream(input), 0, Encode(p))
    ensures Decode(input) == Ok(p, |Encode(p)|)
    ensures Part2(input) == Eval(p)
  {
    var s := HexStream(input);
    RoundTrip(s, 0, Whole(s), p);
  }
}
