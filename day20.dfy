/** Day 20, Trench Map: an infinite image of light and dark pixels, stored
    as a finite grid plus the one colour of every pixel outside it, is
    enhanced by looking each 3×3 neighbourhood up in a 512-entry table. */
module Day20 {
  import opened Common

  /** The image as `Input` holds it: the stored rows and `defaul_pixel`,
      the colour of every pixel outside them. */
  datatype Picture = Picture(image: seq<seq<bool>>, background: bool)
  {
    /** `get_pixel`: the stored pixel for coordinates inside a row,
        the background for any other, negative ones included. */
    function GetPixel(r: int, c: int): (p: bool)
      ensures 0 <= r < |image| && 0 <= c < |image[r]| ==> p == image[r][c]
      ensures !(0 <= r < |image| && 0 <= c < |image[r]|) ==> p == background
    {
      if r >= 0 && c >= 0 && r < |image| && c < |image[r]| then image[r][c]
      else background
    }
  }

  /** Every row as long as the first. */
  predicate Rectangular(image: seq<seq<bool>>) {
    forall i | 0 <= i < |image| :: |image[i]| == |image[0]|
  }

  /** The row and column offsets, each in `-1..=1`, of entry `k` of a
      3×3 neighbourhood read row by row. */
  function Dr(k: int): int { k / 3 - 1 }
  function Dc(k: int): int { k % 3 - 1 }

  /** The 3×3 neighbourhood of `(r, c)`, row by row. */
  function Window(pic: Picture, r: int, c: int): (w: seq<bool>)
    ensures |w| == 9
  {
    seq(9, k => pic.GetPixel(r + Dr(k), c + Dc(k)))
  }

  lemma {:induction false} BitsBound(b: seq<bool>)
    ensures BitsValue(b) < Pow2(|b|)
  {
    if b != [] {
      BitsBound(b[..|b| - 1]);
    }
  }

  /** A run of equal bits is worth nothing or all ones. */
  lemma {:induction false} BitsSame(b: seq<bool>, x: bool)
    requires forall i | 0 <= i < |b| :: b[i] == x
    ensures BitsValue(b) == if x then Pow2(|b|) - 1 else 0
  {
    if b != [] {
      BitsSame(b[..|b| - 1], x);
    }
  }

  /** The lookup index of `(r, c)`: its neighbourhood read as a binary
      number, first pixel most significant; always below 512. */
  function Index(pic: Picture, r: int, c: int): (k: nat)
    ensures k < 512
  {
    var w := Window(pic, r, c);
    assert BitsValue(w) < 512 by {
      BitsBound(w);
      assert Pow2(9) == 512;
    }
    BitsValue(w)
  }

  /** A neighbourhood all of one colour has index 0 when dark and 511
      (`0b111111111`) when lit. */
  lemma IndexUniform(pic: Picture, r: int, c: int, x: bool)
    requires forall k | 0 <= k < 9 :: Window(pic, r, c)[k] == x
    ensures Index(pic, r, c) == if x then 511 else 0
  {
    BitsSame(Window(pic, r, c), x);
    assert Pow2(9) == 512;
  }

  /** One reference enhancement step: the grid grows by one pixel on every
      side, pixel `(i, j)` being the looked-up value of the old pixel
      `(i - 1, j - 1)`; the background becomes `alg[511]` if it was lit and
      `alg[0]` otherwise. */
  function Enhanced(alg: seq<bool>, pic: Picture): (q: Picture)
    requires |alg| >= 512 && |pic.image| >= 1
    ensures |q.image| == |pic.image| + 2 && Rectangular(q.image)
    ensures forall i | 0 <= i < |q.image| :: |q.image[i]| == |pic.image[0]| + 2
    ensures q.background == if pic.background then alg[511] else alg[0]
  {
    var width := |pic.image[0]| + 2;
    Picture(seq(|pic.image| + 2, i => seq(width, j => alg[Index(pic, i - 1, j - 1)])),
            if pic.background then alg[511] else alg[0])
  }

  /** The grid plus background stands for the infinite image: for a
      rectangular grid, EVERY pixel of the enhanced picture, inside the
      new grid or not, is the looked-up value of its old neighbourhood. */
  lemma EnhancedEverywhere(alg: seq<bool>, pic: Picture, r: int, c: int)
    requires |alg| >= 512 && |pic.image| >= 1 && Rectangular(pic.image)
    ensures Enhanced(alg, pic).GetPixel(r, c) == alg[Index(pic, r - 1, c - 1)]
  {
    var q := Enhanced(alg, pic);
    if !(0 <= r < |q.image| && 0 <= c < |q.image[r]|) {
      var w := Window(pic, r - 1, c - 1);
      forall k | 0 <= k < 9
        ensures w[k] == pic.background
      {
      }
      IndexUniform(pic, r - 1, c - 1, pic.background);
    }
  }

  /** `n` reference steps. */
  function EnhancedN(alg: seq<bool>, pic: Picture, n: nat): (q: Picture)
    requires |alg| >= 512 && (n == 0 || |pic.image| >= 1)
    ensures n > 0 ==> |q.image| == |pic.image| + 2 * n && Rectangular(q.image)
    ensures n == 0 ==> q == pic
  {
    if n == 0 then pic else Enhanced(alg, EnhancedN(alg, pic, n - 1))
  }

  /** The infinite image after `n` steps, defined on the whole plane
      without any grid: pixel `(x, y)` of step `n` is the table entry of
      its neighbourhood at step `n - 1`. */
  function Truth(alg: seq<bool>, start: Picture, n: nat, x: int, y: int): bool
    requires |alg| >= 512
    decreases n, 0
  {
    if n == 0 then start.GetPixel(x, y)
    else
      var w := TruthWindow(alg, start, n - 1, x, y);
      assert BitsValue(w) < 512 by {
        BitsBound(w);
        assert Pow2(9) == 512;
      }
      alg[BitsValue(w)]
  }

  /** The neighbourhood of `(x, y)` in the infinite image after `n` steps. */
  function TruthWindow(alg: seq<bool>, start: Picture, n: nat, x: int, y: int): (w: seq<bool>)
    requires |alg| >= 512
    ensures |w| == 9
    decreases n, 1
  {
    seq(9, k => Truth(alg, start, n, x + Dr(k), y + Dc(k)))
  }

  /** After `n` steps, the grid-plus-background pixel `(r, c)` is the
      pixel `(x, y) = (r - n, c - n)` of the infinite image: the grid grows
      by one pixel on every side per step, so its origin moves by one. */
  lemma {:induction false} EnhancedIsTruth(alg: seq<bool>, start: Picture, n: nat, r: int, c: int, x: int, y: int)
    requires |alg| >= 512 && |start.image| >= 1 && Rectangular(start.image)
    requires x == r - n && y == c - n
    ensures EnhancedN(alg, start, n).GetPixel(r, c) == Truth(alg, start, n, x, y)
    decreases n, 0
  {
    if n > 0 {
      var prev := EnhancedN(alg, start, n - 1);
      assert EnhancedN(alg, start, n) == Enhanced(alg, prev);
      EnhancedEverywhere(alg, prev, r, c);
      WindowIsTruth(alg, start, n - 1, r - 1, c - 1, x, y);
    }
  }

  /** The neighbourhoods agree too, pixel by pixel. */
  lemma {:induction false} WindowIsTruth(alg: seq<bool>, start: Picture, n: nat, r: int, c: int, x: int, y: int)
    requires |alg| >= 512 && |start.image| >= 1 && Rectangular(start.image)
    requires x == r - n && y == c - n
    ensures Window(EnhancedN(alg, start, n), r, c) == TruthWindow(alg, start, n, x, y)
    decreases n, 1
  {
    var w, t := Window(EnhancedN(alg, start, n), r, c), TruthWindow(alg, start, n, x, y);
    forall k | 0 <= k < 9
      ensures w[k] == t[k]
    {
      EnhancedIsTruth(alg, start, n, r + Dr(k), c + Dc(k), x + Dr(k), y + Dc(k));
    }
  }

  /** The lit pixels of a row. */
  function RowLit(row: seq<bool>): (n: nat)
    ensures n <= |row|
    ensures n == 0 <==> forall j | 0 <= j < |row| :: !row[j]
  {
    if row == [] then 0 else RowLit(row[..|row| - 1]) + (if row[|row| - 1] then 1 else 0)
  }

  /** The number of pixels of a grid. */
  function Cells(image: seq<seq<bool>>): nat {
    if image == [] then 0 else Cells(image[..|image| - 1]) + |image[|image| - 1]|
  }

  /** The lit pixels of a grid, row after row: at most its number of
      pixels, and zero exactly when none is lit. */
  function LitCount(image: seq<seq<bool>>): (n: nat)
    ensures n <= Cells(image)
    ensures n == 0 <==> forall i, j | 0 <= i < |image| && 0 <= j < |image[i]| :: !image[i][j]
  {
    if image == [] then 0
    else
      var init := image[..|image| - 1];
      assert forall i | 0 <= i < |init| :: init[i] == image[i];
      LitCount(init) + RowLit(image[|image| - 1])
  }

  /** Neighbour `(row, col)`, each in `-1..=1`, is entry `3 * (row + 1) +
      (col + 1)` of the window. */
  lemma WindowAt(row: int, col: int, k: int)
    requires -1 <= row <= 1 && -1 <= col <= 1 && k == 3 * (row + 1) + (col + 1)
    ensures Dr(k) == row && Dc(k) == col
  {
  }

  /** The two loops over `row` and `col` in `-1..=1` of `apply_enhancement`
      that shift each neighbour of `(r, c)` into `lookup_idx`. */
  method LookupIndex(pic: Picture, r: int, c: int) returns (idx: nat)
    ensures idx == Index(pic, r, c)
  {
    ghost var w := Window(pic, r, c);
    idx := 0;
    ghost var k := 0;
    for row := -1 to 2
      invariant k == 3 * (row + 1)
      invariant idx == BitsValue(w[..k])
    {
      for col := -1 to 2
        invariant k == 3 * (row + 1) + (col + 1)
        invariant idx == BitsValue(w[..k])
      {
        var bit := pic.GetPixel(r + row, c + col);
        WindowAt(row, col, k);
        assert w[k] == bit;
        ShiftBit(w, k);
        idx := 2 * idx + if bit then 1 else 0;
        k := k + 1;
      }
    }
    assert w[..9] == w;
  }

  /** The state `apply_enhancement` updates in place. */
  class Input {
    var alg: seq<bool>
    var image: seq<seq<bool>>
    var defaultPixel: bool

    function State(): Picture
      reads this
    {
      Picture(image, defaultPixel)
    }

    /** The `Input` of `parse_input`: the background starts dark. */
    constructor(alg: seq<bool>, image: seq<seq<bool>>)
      ensures this.alg == alg && this.image == image && !defaultPixel
    {
      this.alg := alg;
      this.image := image;
      defaultPixel := false;
    }

    /** `apply_enhancement`: builds the grown grid pixel by pixel, then
        updates the background and replaces the grid; the result is one
        reference step, and the table is unchanged. */
    method ApplyEnhancement()
      requires |alg| >= 512 && |image| >= 1
      modifies this
      ensures alg == old(alg)
      ensures State() == Enhanced(alg, old(State()))
    {
      var pic := State();
      ghost var target := Enhanced(alg, pic);
      var height, width := |image| + 2, |image[0]| + 2;
      var newImage: seq<seq<bool>> := [];
      for idxRow := 0 to height
        invariant unchanged(this)
        invariant newImage == target.image[..idxRow]
      {
        var row: seq<bool> := [];
        for idxCol := 0 to width
          invariant unchanged(this)
          invariant row == target.image[idxRow][..idxCol]
        {
          var lookup := LookupIndex(pic, idxRow - 1, idxCol - 1);
          row := row + [alg[lookup]];
        }
        assert row == target.image[idxRow];
        assert target.image[..idxRow + 1] == target.image[..idxRow] + [row];
        newImage := newImage + [row];
      }
      if defaultPixel {
        defaultPixel := alg[0x1FF];
      } else {
        defaultPixel := alg[0];
      }
      image := newImage;
    }
  }

  /** `enhance`: `iterations` steps in place, then the number of lit pixels
      of the grid. */
  method Enhance(input: Input, iterations: nat) returns (count: nat)
    requires |input.alg| >= 512 && (iterations == 0 || |input.image| >= 1)
    modifies input
    ensures input.alg == old(input.alg)
    ensures input.State() == EnhancedN(input.alg, old(input.State()), iterations)
    ensures count == LitCount(input.image)
  {
    ghost var start := input.State();
    for i := 0 to iterations
      invariant input.alg == old(input.alg)
      invariant input.State() == EnhancedN(input.alg, start, i)
      invariant i > 0 ==> |input.image| >= 1
    {
      input.ApplyEnhancement();
    }
    count := CountLit(input.image);
  }

  /** The `flat_map` / `filter` / `count` chain. */
  method CountLit(image: seq<seq<bool>>) returns (count: nat)
    ensures count == LitCount(image)
  {
    count := 0;
    for i := 0 to |image|
      invariant count == LitCount(image[..i])
    {
      for j := 0 to |image[i]|
        invariant count == LitCount(image[..i]) + RowLit(image[i][..j])
      {
        assert image[i][..j + 1][..j] == image[i][..j];
        if image[i][j] {
          count := count + 1;
        }
      }
      assert image[..i + 1][..i] == image[..i];
      assert image[i][..|image[i]|] == image[i];
    }
    assert image[..|image|] == image;
  }

  // ---------------------------------------------------------------------
  // Parsing

  /** `char_to_pixel`: `#` is lit, `.` dark, anything else panics. */
  function CharToPixel(c: char): (r: Option<bool>)
    ensures r.Some? <==> c == '#' || c == '.'
    ensures r.Some? ==> (r.value <==> c == '#')
  {
    match c
    case '#' => Some(true)
    case '.' => Some(false)
    case _ => None
  }

  /** One line of pixels, in order; `None` when a character is neither
      `#` nor `.`. */
  function ParseRow(line: string): (r: Option<seq<bool>>)
    ensures r.Some? <==> forall i | 0 <= i < |line| :: CharToPixel(line[i]).Some?
    ensures r.Some? ==> (|r.value| == |line|
      && forall i | 0 <= i < |line| :: Some(r.value[i]) == CharToPixel(line[i]))
  {
    if forall i | 0 <= i < |line| :: CharToPixel(line[i]).Some? then
      Some(seq(|line|, i requires 0 <= i < |line| => CharToPixel(line[i]).value))
    else None
  }

  /** `parse_input`: the table on the first line, one line skipped, then
      the rows of the grid. */
  function ParseInput(lines: seq<string>): (r: Option<(seq<bool>, seq<seq<bool>>)>)
    ensures r.Some? <==> (|lines| >= 1 && ParseRow(lines[0]).Some?
      && forall i | 2 <= i < |lines| :: ParseRow(lines[i]).Some?)
    ensures r.Some? ==> (Some(r.value.0) == ParseRow(lines[0])
      && |r.value.1| == (if |lines| >= 2 then |lines| - 2 else 0)
      && forall i | 2 <= i < |lines| :: Some(r.value.1[i - 2]) == ParseRow(lines[i]))
  {
    if |lines| == 0 then None
    else if ParseRow(lines[0]).None? then None
    else if forall i | 2 <= i < |lines| :: ParseRow(lines[i]).Some? then
      var rows := if |lines| >= 2 then |lines| - 2 else 0;
      Some((ParseRow(lines[0]).value, seq(rows, i requires 0 <= i < rows => ParseRow(lines[i + 2]).value)))
    else None
  }

  /** `part1` / `part2`: parse, enhance `iterations` times (2 and 50),
      count the lit pixels of the grid. */
  method Solve(lines: seq<string>, iterations: nat) returns (r: Option<nat>)
    requires ParseInput(lines).Some? ==> (|ParseInput(lines).value.0| >= 512
      && (iterations == 0 || |ParseInput(lines).value.1| >= 1))
    ensures r.None? <==> ParseInput(lines).None?
    ensures r.Some? ==> r.value == LitCount(EnhancedN(ParseInput(lines).value.0,
      Picture(ParseInput(lines).value.1, false), iterations).image)
  {
    var parsed := ParseInput(lines);
    if parsed.None? {
      return None;
    }
    var input := new Input(parsed.value.0, parsed.value.1);
    var count := Enhance(input, iterations);
    r := Some(count);
  }
}
