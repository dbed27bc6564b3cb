/** Day 4, Giant Squid: bingo boards against a sequence of drawn numbers.
    A board wins at the first draw after which one of its rows or columns
    is fully marked; the score is the sum of its unmarked numbers times
    the number just drawn. */
module Day4 {
  import opened Common

  /** A 5×5 board, `board[x][y]` being row x, column y. */
  type Board = seq<seq<nat>>

  predicate ValidBoard(board: Board) {
    |board| == 5 && forall x :: 0 <= x < 5 ==> |board[x]| == 5
  }

  /** Every number on the board is drawn at some point; otherwise
      `position(..).unwrap()` panics. */
  predicate AllDrawn(numbers: seq<nat>, board: Board) {
    ValidBoard(board) && forall x, y :: 0 <= x < 5 && 0 <= y < 5 ==> board[x][y] in numbers
  }

  // ---------------------------------------------------------------------
  // Draw indices

  /** `numbers.iter().position(|&elem| elem == v)`. */
  function Position(numbers: seq<nat>, v: nat): (r: Option<nat>)
    ensures r.Some? ==> r.value < |numbers| && numbers[r.value] == v
    ensures r.Some? ==> forall j :: 0 <= j < r.value ==> numbers[j] != v
    ensures r.None? <==> v !in numbers
  {
    if numbers == [] then None
    else if numbers[0] == v then Some(0)
    else
      match Position(numbers[1..], v)
      case None => None
      case Some(i) => Some(i + 1)
  }

  /** A drawn number is marked after draw k exactly when it is first
      drawn at index k or earlier. */
  lemma PositionMarked(numbers: seq<nat>, v: nat, k: nat)
    requires v in numbers
    ensures Position(numbers, v).value <= k <==> v in numbers[..Min(k + 1, |numbers|)]
  {
    var p := Position(numbers, v).value;
    var prefix := numbers[..Min(k + 1, |numbers|)];
    if p <= k {
      assert prefix[p] == v;
    }
    if v in prefix {
      var j :| 0 <= j < |prefix| && prefix[j] == v;
      assert numbers[j] == v;
    }
  }

  function Column(board: Board, x: nat): (c: seq<nat>)
    requires ValidBoard(board) && x < 5
    ensures |c| == 5 && forall y :: 0 <= y < 5 ==> c[y] == board[y][x]
  {
    seq(5, y requires 0 <= y < 5 => board[y][x])
  }

  /** The draw index at which a line of numbers is complete: the largest
      of their first positions. */
  function LineRound(numbers: seq<nat>, line: seq<nat>): (r: nat)
    requires forall c :: c in line ==> c in numbers
    ensures line == [] || r < |numbers|
  {
    if line == [] then 0
    else Max(LineRound(numbers, line[..|line| - 1]), Position(numbers, line[|line| - 1]).value)
  }

  /** All numbers of `line` are among `balls`. */
  predicate Marked(balls: seq<nat>, line: seq<nat>) {
    forall c :: c in line ==> c in balls
  }

  /** A line is complete after draw k exactly when its round is at most k. */
  lemma {:induction false} LineRoundMarked(numbers: seq<nat>, line: seq<nat>, k: nat)
    requires forall c :: c in line ==> c in numbers
    ensures LineRound(numbers, line) <= k <==> Marked(numbers[..Min(k + 1, |numbers|)], line)
  {
    if line != [] {
      var init := line[..|line| - 1];
      LineRoundMarked(numbers, init, k);
      PositionMarked(numbers, line[|line| - 1], k);
      assert line == init + [line[|line| - 1]];
    }
  }

  /** The round in which one of the first `k` rows or columns completes. */
  function RoundUpTo(numbers: seq<nat>, board: Board, k: nat): (r: nat)
    requires AllDrawn(numbers, board) && 1 <= k <= 5
    ensures r < |numbers|
  {
    RowDrawn(numbers, board, k - 1);
    var line := Min(LineRound(numbers, board[k - 1]), LineRound(numbers, Column(board, k - 1)));
    if k == 1 then line else Min(RoundUpTo(numbers, board, k - 1), line)
  }

  /** The board's winning draw index, as `process_board` computes it. */
  function WinRound(numbers: seq<nat>, board: Board): (r: nat)
    requires AllDrawn(numbers, board)
    ensures r < |numbers|
  {
    RoundUpTo(numbers, board, 5)
  }

  /** Bingo after draw k: some row or column is fully marked. */
  predicate Bingo(numbers: seq<nat>, board: Board, k: nat)
    requires ValidBoard(board)
  {
    exists x :: 0 <= x < 5 && BingoAt(numbers, board, k, x)
  }

  predicate BingoAt(numbers: seq<nat>, board: Board, k: nat, x: nat)
    requires ValidBoard(board) && x < 5
  {
    var balls := numbers[..Min(k + 1, |numbers|)];
    Marked(balls, board[x]) || Marked(balls, Column(board, x))
  }

  /** Every number of row x and of column x is drawn. */
  lemma RowDrawn(numbers: seq<nat>, board: Board, x: nat)
    requires AllDrawn(numbers, board) && x < 5
    ensures forall c :: c in board[x] ==> c in numbers
    ensures forall c :: c in Column(board, x) ==> c in numbers
  {
    forall c | c in board[x] ensures c in numbers {
      var y :| 0 <= y < 5 && board[x][y] == c;
    }
    forall c | c in Column(board, x) ensures c in numbers {
      var y :| 0 <= y < 5 && Column(board, x)[y] == c;
    }
  }

  lemma LineBingo(numbers: seq<nat>, board: Board, x: nat, j: nat)
    requires AllDrawn(numbers, board) && x < 5
    ensures (forall c :: c in board[x] ==> c in numbers) && (forall c :: c in Column(board, x) ==> c in numbers)
    ensures Min(LineRound(numbers, board[x]), LineRound(numbers, Column(board, x))) <= j <==> BingoAt(numbers, board, j, x)
  {
    RowDrawn(numbers, board, x);
    LineRoundMarked(numbers, board[x], j);
    LineRoundMarked(numbers, Column(board, x), j);
  }

  lemma {:induction false} RoundUpToBingo(numbers: seq<nat>, board: Board, k: nat, j: nat)
    requires AllDrawn(numbers, board) && 1 <= k <= 5
    ensures RoundUpTo(numbers, board, k) <= j <==> exists x :: 0 <= x < k && BingoAt(numbers, board, j, x)
  {
    var x := k - 1;
    LineBingo(numbers, board, x, j);
    var line := Min(LineRound(numbers, board[x]), LineRound(numbers, Column(board, x)));
    assert line <= j <==> BingoAt(numbers, board, j, x);
    if k > 1 {
      RoundUpToBingo(numbers, board, k - 1, j);
      assert RoundUpTo(numbers, board, k) == Min(RoundUpTo(numbers, board, k - 1), line);
      if RoundUpTo(numbers, board, k) <= j {
        if line > j {
          var w :| 0 <= w < k - 1 && BingoAt(numbers, board, j, w);
          assert 0 <= w < k;
        }
      } else {
        forall w | 0 <= w < k
          ensures !BingoAt(numbers, board, j, w)
        {
          if w < k - 1 {
            assert !exists v :: 0 <= v < k - 1 && BingoAt(numbers, board, j, v);
          }
        }
      }
    } else {
      assert RoundUpTo(numbers, board, k) == line;
    }
  }

  /** The winning round is the first draw index with a bingo. */
  lemma WinRoundIsFirstBingo(numbers: seq<nat>, board: Board)
    requires AllDrawn(numbers, board)
    ensures Bingo(numbers, board, WinRound(numbers, board))
    ensures forall k :: 0 <= k < WinRound(numbers, board) ==> !Bingo(numbers, board, k)
  {
    RoundUpToBingo(numbers, board, 5, WinRound(numbers, board));
    forall k | 0 <= k < WinRound(numbers, board)
      ensures !Bingo(numbers, board, k)
    {
      RoundUpToBingo(numbers, board, 5, k);
    }
  }

  // ---------------------------------------------------------------------
  // Scores

  /** The sum of the numbers of `row` that are not among `balls`. */
  function OpenRow(row: seq<nat>, balls: seq<nat>): nat
  {
    if row == [] then 0
    else OpenRow(row[..|row| - 1], balls) + (if row[|row| - 1] in balls then 0 else row[|row| - 1])
  }

  function MarkedRow(row: seq<nat>, balls: seq<nat>): nat
  {
    if row == [] then 0
    else MarkedRow(row[..|row| - 1], balls) + (if row[|row| - 1] in balls then row[|row| - 1] else 0)
  }

  function RowSum(row: seq<nat>): nat
  {
    if row == [] then 0 else RowSum(row[..|row| - 1]) + row[|row| - 1]
  }

  /** The open-number sum over all rows. */
  function OpenSum(board: Board, balls: seq<nat>): nat
  {
    if board == [] then 0 else OpenSum(board[..|board| - 1], balls) + OpenRow(board[|board| - 1], balls)
  }

  function MarkedSum(board: Board, balls: seq<nat>): nat
  {
    if board == [] then 0 else MarkedSum(board[..|board| - 1], balls) + MarkedRow(board[|board| - 1], balls)
  }

  function BoardSum(board: Board): nat
  {
    if board == [] then 0 else BoardSum(board[..|board| - 1]) + RowSum(board[|board| - 1])
  }

  /** Every number is either open or marked. */
  lemma {:induction false} OpenPlusMarked(board: Board, balls: seq<nat>)
    ensures OpenSum(board, balls) + MarkedSum(board, balls) == BoardSum(board)
  {
    if board != [] {
      OpenPlusMarked(board[..|board| - 1], balls);
      RowOpenPlusMarked(board[|board| - 1], balls);
    }
  }

  lemma {:induction false} RowOpenPlusMarked(row: seq<nat>, balls: seq<nat>)
    ensures OpenRow(row, balls) + MarkedRow(row, balls) == RowSum(row)
  {
    if row != [] {
      RowOpenPlusMarked(row[..|row| - 1], balls);
    }
  }

  /** Nothing is open once every number is drawn. */
  lemma {:induction false} AllMarkedNothingOpen(board: Board, balls: seq<nat>)
    requires forall x :: 0 <= x < |board| ==> Marked(balls, board[x])
    ensures OpenSum(board, balls) == 0
  {
    if board != [] {
      AllMarkedNothingOpen(board[..|board| - 1], balls);
      RowAllMarked(board[|board| - 1], balls);
    }
  }

  lemma {:induction false} RowAllMarked(row: seq<nat>, balls: seq<nat>)
    requires Marked(balls, row)
    ensures OpenRow(row, balls) == 0
  {
    if row != [] {
      RowAllMarked(row[..|row| - 1], balls);
    }
  }

  /** The open-number sum right after the board's winning draw. */
  function Unmarked(numbers: seq<nat>, board: Board): nat
    requires AllDrawn(numbers, board)
  {
    OpenSum(board, numbers[..WinRound(numbers, board) + 1])
  }

  // ---------------------------------------------------------------------
  // process_board

  /** The inner loop of `process_board`: the completion rounds of row x
      and of column x. */
  method LineRounds(numbers: seq<nat>, board: Board, x: nat) returns (maxRow: nat, maxColumn: nat)
    requires AllDrawn(numbers, board) && x < 5
    ensures (forall c :: c in board[x] ==> c in numbers) && (forall c :: c in Column(board, x) ==> c in numbers)
    ensures maxRow == LineRound(numbers, board[x]) && maxColumn == LineRound(numbers, Column(board, x))
  {
    RowDrawn(numbers, board, x);
    ghost var row, column := board[x], Column(board, x);
    maxRow, maxColumn := 0, 0;
    var y := 0;
    while y < 5
      invariant 0 <= y <= 5
      invariant maxRow == LineRound(numbers, row[..y])
      invariant maxColumn == LineRound(numbers, column[..y])
    {
      assert row[..y + 1][..y] == row[..y];
      assert column[..y + 1][..y] == column[..y];
      maxColumn := Max(maxColumn, Position(numbers, board[y][x]).value);
      maxRow := Max(maxRow, Position(numbers, board[x][y]).value);
      y := y + 1;
    }
    assert row[..5] == row;
    assert column[..5] == column;
  }

  /** `process_board`: the smallest completion round over all rows and
      columns (`min` starts at `usize::MAX`), then the open-number sum
      after that draw. */
  method ProcessBoard(numbers: seq<nat>, board: Board) returns (min: nat, open: nat)
    requires AllDrawn(numbers, board)
    ensures min == WinRound(numbers, board) && min < |numbers|
    ensures open == Unmarked(numbers, board)
  {
    var x := 0;
    min := 0;
    while x < 5
      invariant 0 <= x <= 5
      invariant x > 0 ==> min == RoundUpTo(numbers, board, x)
    {
      var maxRow, maxColumn := LineRounds(numbers, board, x);
      min := if x == 0 then Min(maxRow, maxColumn) else Min(min, Min(maxRow, maxColumn));
      x := x + 1;
    }
    open := OpenSum(board, numbers[..min + 1]);
  }

  // ---------------------------------------------------------------------
  // both

  datatype DesiredResult = Win | Loose

  /** `i` is the board `both` keeps among the first `n`: every earlier
      board strictly worse for the wanted result, no later one strictly
      better. */
  predicate ChoiceAmong(rounds: seq<nat>, n: nat, i: nat, want: DesiredResult) {
    i < n <= |rounds| &&
    (forall j :: 0 <= j < i ==> Better(rounds[i], rounds[j], want)) &&
    (forall j :: i < j < n ==> !Better(rounds[j], rounds[i], want))
  }

  predicate IsChoice(rounds: seq<nat>, i: nat, want: DesiredResult) {
    ChoiceAmong(rounds, |rounds|, i, want)
  }

  predicate Better(a: nat, b: nat, want: DesiredResult) {
    match want
    case Win => a < b
    case Loose => a > b
  }

  /** One more board: it is kept exactly when it is strictly better. */
  lemma ChoiceStep(rounds: seq<nat>, k: nat, chosen: nat, want: DesiredResult)
    requires k < |rounds| && ChoiceAmong(rounds, k, chosen, want)
    ensures Better(rounds[k], rounds[chosen], want) ==> ChoiceAmong(rounds, k + 1, k, want)
    ensures !Better(rounds[k], rounds[chosen], want) ==> ChoiceAmong(rounds, k + 1, chosen, want)
  {
  }

  /** The winning round of every board, in order. */
  function Rounds(numbers: seq<nat>, boards: seq<Board>): (r: seq<nat>)
    requires forall i :: 0 <= i < |boards| ==> AllDrawn(numbers, boards[i])
    ensures |r| == |boards|
    ensures forall i :: 0 <= i < |boards| ==> r[i] == WinRound(numbers, boards[i])
  {
    if boards == [] then []
    else Rounds(numbers, boards[..|boards| - 1]) + [WinRound(numbers, boards[|boards| - 1])]
  }

  /** `both`: keep the board with the strictly better round, then the
      winning number times its open sum. */
  method Both(numbers: seq<nat>, boards: seq<Board>, want: DesiredResult) returns (r: nat)
    requires |boards| >= 1
    requires forall i :: 0 <= i < |boards| ==> AllDrawn(numbers, boards[i])
    ensures exists i: nat :: (IsChoice(Rounds(numbers, boards), i, want) &&
      r == numbers[WinRound(numbers, boards[i])] * Unmarked(numbers, boards[i]))
  {
    ghost var all := Rounds(numbers, boards);
    var rounds, remainingScore := ProcessBoard(numbers, boards[0]);
    ghost var chosen := 0;
    var k := 1;
    while k < |boards|
      invariant 1 <= k <= |boards|
      invariant ChoiceAmong(all, k, chosen, want)
      invariant rounds == all[chosen] && remainingScore == Unmarked(numbers, boards[chosen])
    {
      var newRounds, newScore := ProcessBoard(numbers, boards[k]);
      ChoiceStep(all, k, chosen, want);
      if Better(newRounds, rounds, want) {
        rounds, remainingScore := newRounds, newScore;
        chosen := k;
      }
      k := k + 1;
    }
    r := Product(numbers[rounds], remainingScore);
  }

  function Product(a: nat, b: nat): nat {
    a * b
  }

  // ---------------------------------------------------------------------
  // Parsing

  /** One board line: the non-empty words of `split(' ')`, of which the
      first five are parsed (`unwrap` panics on fewer or on a bad number). */
  function ParseBoardLine(line: string): (r: Option<seq<nat>>)
    ensures r.Some? <==> (var words := NonEmpty(Split(line, ' '));
      |words| >= 5 && forall k :: 0 <= k < 5 ==> ParseNat(words[k]).Some?)
    ensures r.Some? ==> (|r.value| == 5 && var words := NonEmpty(Split(line, ' '));
      forall k :: 0 <= k < 5 ==> ParseNat(words[k]) == Some(r.value[k]))
  {
    var words := NonEmpty(Split(line, ' '));
    if |words| < 5 then None
    else
      assert forall k :: 0 <= k < 5 ==> words[..5][k] == words[k];
      match ParseNats(words[..5])
      case None => None
      case Some(v) => Some(v)
  }

  /** Five numbers written with spaces between them read back as
      themselves. */
  lemma BoardLineRoundTrip(row: seq<nat>)
    requires |row| == 5
    ensures ParseBoardLine(Join(ShowNats(row), ' ')) == Some(row)
  {
    SplitShowNats(row, ' ');
    NonEmptyKeeps(ShowNats(row));
    ParseShowNats(row);
    assert ShowNats(row)[..5] == ShowNats(row);
  }

  /** The `i`-th six-line block of the input: a separator and five board
      lines. */
  function Chunk(lines: seq<string>, i: nat): (c: seq<string>)
    requires 6 * i + 6 <= |lines|
    ensures |c| == 6
  {
    lines[6 * i..6 * i + 6]
  }

  lemma ChunkShift(lines: seq<string>)
    requires |lines| >= 6
    ensures forall i :: 0 <= i && 6 * i + 6 <= |lines| - 6 ==> Chunk(lines[6..], i) == Chunk(lines, i + 1)
  {
  }

  /** One block: the separator is skipped and the five lines under it are
      the rows of the board. */
  function ParseBoard(chunk: seq<string>): (r: Option<Board>)
    requires |chunk| == 6
    ensures r.Some? <==> (forall k :: 0 <= k < 5 ==> ParseBoardLine(chunk[1..][k]).Some?)
    ensures r.Some? ==>
      (ValidBoard(r.value) && forall k :: 0 <= k < 5 ==> ParseBoardLine(chunk[1..][k]) == Some(r.value[k]))
  {
    var rows := chunk[1..];
    if forall k :: 0 <= k < 5 ==> ParseBoardLine(rows[k]).Some?
    then Some(seq(5, k requires 0 <= k < 5 => ParseBoardLine(rows[k]).value))
    else None
  }

  /** `BoardCollector`: each board is one skipped separator line and five
      board lines; a missing separator ends the boards, a missing board
      line panics. */
  function ParseBoards(lines: seq<string>): (r: Option<seq<Board>>)
    ensures r.Some? ==> |lines| == 6 * |r.value|
    decreases |lines|
  {
    if lines == [] then Some([])
    else if |lines| < 6 then None
    else
      match (ParseBoard(lines[..6]), ParseBoards(lines[6..]))
      case (Some(board), Some(rest)) => Some([board] + rest)
      case _ => None
  }

  /** The input splits into whole blocks, and it parses exactly when
      every block does, each block giving its board. */
  lemma {:induction false} ParseBoardsBlocks(lines: seq<string>)
    ensures ParseBoards(lines).Some? <==>
      (|lines| % 6 == 0 && forall i :: 0 <= i < |lines| / 6 ==> ParseBoard(Chunk(lines, i)).Some?)
    ensures ParseBoards(lines).Some? ==>
      (forall i :: 0 <= i < |lines| / 6 ==> ParseBoard(Chunk(lines, i)) == Some(ParseBoards(lines).value[i]))
    ensures ParseBoards(lines).Some? ==>
      (forall i :: 0 <= i < |lines| / 6 ==> ValidBoard(ParseBoards(lines).value[i]))
    decreases |lines|
  {
    if |lines| >= 6 {
      var rest := lines[6..];
      ParseBoardsBlocks(rest);
      ChunkShift(lines);
      assert Chunk(lines, 0) == lines[..6];
      assert |rest| / 6 == |lines| / 6 - 1 && |rest| % 6 == |lines| % 6;
      if ParseBoards(lines).Some? {
        var b := ParseBoards(lines).value;
        assert b[1..] == ParseBoards(rest).value;
        forall i | 0 <= i < |lines| / 6
          ensures ParseBoard(Chunk(lines, i)) == Some(b[i])
        {
          if i > 0 {
            assert Chunk(rest, i - 1) == Chunk(lines, i);
          }
        }
      } else if |lines| % 6 == 0 && ParseBoard(Chunk(lines, 0)).Some? {
        var i :| 0 <= i < |rest| / 6 && ParseBoard(Chunk(rest, i)).None?;
        assert Chunk(rest, i) == Chunk(lines, i + 1);
      }
    }
  }

  /** `parse_input`: the drawn numbers on the first line, comma separated,
      then the boards. An empty input or a bad number panics. */
  function ParseInput(lines: seq<string>): (r: Option<(seq<nat>, seq<Board>)>)
    ensures r.Some? <==> (|lines| >= 1
      && (forall i :: 0 <= i < |Split(lines[0], ',')| ==> ParseNat(Split(lines[0], ',')[i]).Some?)
      && ParseBoards(lines[1..]).Some?)
    ensures r.Some? ==> (|r.value.0| == |Split(lines[0], ',')|
      && (forall i :: 0 <= i < |r.value.0| ==> ParseNat(Split(lines[0], ',')[i]) == Some(r.value.0[i]))
      && r.value.1 == ParseBoards(lines[1..]).value)
  {
    if lines == [] then None
    else
      var balls := ParseNats(Split(lines[0], ','));
      var boards := ParseBoards(lines[1..]);
      if balls.Some? && boards.Some? then Some((balls.value, boards.value)) else None
  }
}
