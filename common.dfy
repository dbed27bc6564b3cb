/** Small shared vocabulary: optional values, integer helpers and the
    string operations (`split_once`, `splitn`, `parse`) that the puzzle
    parsers use. */
module Common {

  datatype Option<+T> = None | Some(value: T)

  function Abs(x: int): (r: nat)
    ensures r == x || r == -x
  {
    if x < 0 then -x else x
  }

  function Max(a: int, b: int): (r: int)
    ensures r >= a && r >= b && (r == a || r == b)
  {
    if a >= b then a else b
  }

  function Min(a: int, b: int): (r: int)
    ensures r <= a && r <= b && (r == a || r == b)
  {
    if a <= b then a else b
  }

  /** Sum of a sequence of integers, folded from the left. */
  function Sum(s: seq<int>): int
  {
    if s == [] then 0 else Sum(s[..|s| - 1]) + s[|s| - 1]
  }

  lemma {:induction false} SumAppend(s: seq<int>, t: seq<int>)
    ensures Sum(s + t) == Sum(s) + Sum(t)
  {
    if t == [] {
      assert s + t == s;
    } else {
      assert (s + t)[..|s + t| - 1] == s + t[..|t| - 1];
      SumAppend(s, t[..|t| - 1]);
    }
  }

  lemma {:induction false} SumNonNegative(s: seq<int>)
    requires forall i :: 0 <= i < |s| ==> s[i] >= 0
    ensures Sum(s) >= 0
  {
    if s != [] {
      SumNonNegative(s[..|s| - 1]);
    }
  }

  // ---------------------------------------------------------------------
  // Text

  predicate IsDigit(c: char) {
    '0' <= c <= '9'
  }

  function DigitValue(c: char): (d: nat)
    requires IsDigit(c)
    ensures d < 10
  {
    (c as int) - ('0' as int)
  }

  /** Big-endian value of a string of decimal digits. */
  function DigitsValue(s: string): nat
    requires forall i :: 0 <= i < |s| ==> IsDigit(s[i])
  {
    if s == [] then 0 else DigitsValue(s[..|s| - 1]) * 10 + DigitValue(s[|s| - 1])
  }

  /**
   * `c as u8 - b'0'`: the cast keeps the low eight bits of the code point,
   * and the unsigned subtraction fails (`None`) below `'0'`.
   */
  function ByteDigit(c: char): (r: Option<int>)
    ensures r.Some? <==> c as int % 256 >= '0' as int
    ensures r.Some? ==> 0 <= r.value < 256 - '0' as int
    ensures '0' <= c <= '9' ==> r == Some(c as int - '0' as int)
  {
    var b := c as int % 256;
    if b < '0' as int then None else Some(b - '0' as int)
  }

  /** `ByteDigit` of every character; `None` when any of them fails. */
  function ByteDigits(line: string): (r: Option<seq<int>>)
    ensures r.Some? <==> forall i :: 0 <= i < |line| ==> ByteDigit(line[i]).Some?
    ensures r.Some? ==> |r.value| == |line|
    ensures r.Some? ==> forall i :: 0 <= i < |line| ==> Some(r.value[i]) == ByteDigit(line[i])
  {
    if line == [] then Some([])
    else
      match (ByteDigits(line[..|line| - 1]), ByteDigit(line[|line| - 1]))
      case (Some(init), Some(h)) => Some(init + [h])
      case _ => None
  }

  function DigitChar(d: nat): (c: char)
    requires d < 10
    ensures IsDigit(c) && DigitValue(c) == d
  {
    ((d + '0' as int) as char)
  }

  /** Decimal rendering of a natural number, without leading zeros. */
  function ShowNat(n: nat): (s: string)
    ensures |s| >= 1 && forall i :: 0 <= i < |s| ==> IsDigit(s[i])
    decreases n
  {
    if n < 10 then [DigitChar(n)] else ShowNat(n / 10) + [DigitChar(n % 10)]
  }

  /** Rust's `str::parse` for unsigned integers: an optional `+` and at
      least one decimal digit, nothing else. */
  function ParseNat(s: string): (r: Option<nat>)
    ensures r.Some? ==> |s| >= 1
  {
    var body := if |s| > 0 && s[0] == '+' then s[1..] else s;
    if |body| > 0 && forall i :: 0 <= i < |body| ==> IsDigit(body[i])
    then Some(DigitsValue(body))
    else None
  }

  /** Rust's `str::parse` for signed integers: an optional `+` or `-`
      and at least one decimal digit. */
  function ParseInt(s: string): (r: Option<int>)
    ensures r.Some? ==> |s| >= 1
  {
    if |s| > 0 && s[0] == '-' then
      var body := s[1..];
      if |body| > 0 && forall i :: 0 <= i < |body| ==> IsDigit(body[i])
      then Some(0 - DigitsValue(body) as int)
      else None
    else
      match ParseNat(s)
      case Some(n) => Some(n)
      case None => None
  }

  lemma {:induction false} ShowNatValue(n: nat)
    ensures DigitsValue(ShowNat(n)) == n
    decreases n
  {
    if n >= 10 {
      var s := ShowNat(n);
      assert s[..|s| - 1] == ShowNat(n / 10);
      ShowNatValue(n / 10);
    }
  }

  lemma ParseShowNat(n: nat)
    ensures ParseNat(ShowNat(n)) == Some(n)
    ensures ParseInt(ShowNat(n)) == Some(n)
  {
    ShowNatValue(n);
  }

  lemma ParseShowNegative(n: nat)
    requires n > 0
    ensures ParseInt(['-'] + ShowNat(n)) == Some(0 - n as int)
  {
    ShowNatValue(n);
    assert (['-'] + ShowNat(n))[1..] == ShowNat(n);
  }

  /** True when `sep` occurs in `s` at position `k`. */
  predicate OccursAt(s: string, sep: string, k: nat) {
    k + |sep| <= |s| && s[k..k + |sep|] == sep
  }

  /** The first position at or after `from` where `sep` occurs. */
  function FindFrom(s: string, sep: string, from: nat): (r: Option<nat>)
    requires |sep| > 0
    ensures r.Some? ==> from <= r.value && OccursAt(s, sep, r.value)
    ensures r.Some? ==> forall k :: from <= k < r.value ==> !OccursAt(s, sep, k)
    ensures r.None? ==> forall k :: from <= k ==> !OccursAt(s, sep, k)
    decreases |s| - from
  {
    if from + |sep| > |s| then None
    else if s[from..from + |sep|] == sep then Some(from)
    else FindFrom(s, sep, from + 1)
  }

  /** `str::strip_prefix`. */
  function StripPrefix(s: string, prefix: string): (r: Option<string>)
    ensures r.Some? <==> |prefix| <= |s| && s[..|prefix|] == prefix
    ensures r.Some? ==> s == prefix + r.value
  {
    if |prefix| <= |s| && s[..|prefix|] == prefix then Some(s[|prefix|..]) else None
  }

  /** `str::split_once`: the parts before and after the first occurrence
      of `sep`. */
  function SplitOnce(s: string, sep: string): (r: Option<(string, string)>)
    requires |sep| > 0
    ensures r.Some? ==> s == r.value.0 + sep + r.value.1
    ensures r.Some? ==> forall k :: 0 <= k < |r.value.0| ==> !OccursAt(s, sep, k)
    ensures r.None? ==> forall k :: 0 <= k ==> !OccursAt(s, sep, k)
  {
    match FindFrom(s, sep, 0)
    case None => None
    case Some(k) =>
      assert s == s[..k] + s[k..k + |sep|] + s[k + |sep|..];
      Some((s[..k], s[k + |sep|..]))
  }

  /** `str::split` on a single character: every piece, empty ones
      included; the pieces joined with `sep` give back `s`. */
  function Split(s: string, sep: char): (r: seq<string>)
    ensures |r| >= 1
    ensures forall i :: 0 <= i < |r| ==> sep !in r[i]
    ensures Join(r, sep) == s
  {
    match SplitOnce(s, [sep])
    case None =>
      assert forall i :: 0 <= i < |s| ==> s[i] != sep by {
        forall i | 0 <= i < |s| ensures s[i] != sep {
          assert !OccursAt(s, [sep], i);
          assert s[i..i + 1] == [s[i]];
        }
      }
      [s]
    case Some((a, b)) =>
      assert sep !in a by {
        forall i | 0 <= i < |a| ensures a[i] != sep {
          assert !OccursAt(s, [sep], i);
          assert s[i..i + 1] == [a[i]];
        }
      }
      [a] + Split(b, sep)
  }

  /** Pieces glued back together with the separator between them. */
  function Join(parts: seq<string>, sep: char): string
    requires |parts| >= 1
  {
    if |parts| == 1 then parts[0] else parts[0] + [sep] + Join(parts[1..], sep)
  }

  /** `str::splitn(n, sep)`: at most `n` pieces, the last one holding the
      unsplit rest. */
  function SplitN(s: string, n: nat, sep: char): (r: seq<string>)
    requires n >= 1
    ensures 1 <= |r| <= n
    ensures forall i :: 0 <= i < |r| - 1 ==> sep !in r[i]
    ensures Join(r, sep) == s
  {
    if n == 1 then [s]
    else
      match SplitOnce(s, [sep])
      case None => [s]
      case Some((a, b)) =>
        assert sep !in a by {
          forall i | 0 <= i < |a| ensures a[i] != sep {
            assert !OccursAt(s, [sep], i);
            assert s[i..i + 1] == [a[i]];
          }
        }
        [a] + SplitN(b, n - 1, sep)
  }

  /** The first separator of `a + [sep] + rest` is the one after `a` when
      `a` holds none. */
  lemma SplitOnceFirst(a: string, sep: char, rest: string)
    requires sep !in a
    ensures SplitOnce(a + [sep] + rest, [sep]) == Some((a, rest))
  {
    var s := a + [sep] + rest;
    assert s[|a|..|a| + 1] == [sep];
    assert OccursAt(s, [sep], |a|);
    var r := SplitOnce(s, [sep]);
    var x, y := r.value.0, r.value.1;
    assert s[|x|] == sep by {
      assert s == x + [sep] + y;
    }
    assert |x| == |a|;
    assert x == s[..|a|] == a;
    assert y == s[|a| + 1..] == rest;
  }

  /** Splitting `n` separator-free pieces joined with the separator into
      at most `n` pieces gives the pieces back. */
  lemma {:induction false} SplitNJoin(parts: seq<string>, sep: char)
    requires |parts| >= 1 && forall i :: 0 <= i < |parts| ==> sep !in parts[i]
    ensures SplitN(Join(parts, sep), |parts|, sep) == parts
    decreases |parts|
  {
    if |parts| > 1 {
      var rest := Join(parts[1..], sep);
      assert Join(parts, sep) == parts[0] + [sep] + rest;
      assert sep !in parts[0];
      SplitOnceFirst(parts[0], sep, rest);
      assert forall i :: 0 <= i < |parts[1..]| ==> sep !in parts[1..][i];
      SplitNJoin(parts[1..], sep);
      assert SplitN(Join(parts, sep), |parts|, sep) == [parts[0]] + SplitN(rest, |parts| - 1, sep);
      assert parts == [parts[0]] + parts[1..];
    }
  }

  /** The first occurrence of `sep` in `a + sep + rest` is the one after
      `a` when `a` does not hold the separator's first character. */
  lemma SplitOnceAt(a: string, sep: string, rest: string)
    requires |sep| > 0 && sep[0] !in a
    ensures SplitOnce(a + sep + rest, sep) == Some((a, rest))
  {
    var s := a + sep + rest;
    assert s[|a|..|a| + |sep|] == sep;
    assert OccursAt(s, sep, |a|);
    var r := SplitOnce(s, sep);
    var x, y := r.value.0, r.value.1;
    assert |x| == |a|;
    assert x == s[..|a|] == a;
    assert y == s[|a| + |sep|..] == rest;
  }

  /** A string without the separator's first character holds no
      separator. */
  lemma SplitOnceAbsent(s: string, sep: string)
    requires |sep| > 0 && sep[0] !in s
    ensures SplitOnce(s, sep) == None
  {
  }

  /** The text before the first occurrence of a one-character separator
      does not hold it. */
  lemma SplitOnceBefore(s: string, sep: char)
    requires SplitOnce(s, [sep]).Some?
    ensures sep !in SplitOnce(s, [sep]).value.0
  {
    var a := SplitOnce(s, [sep]).value.0;
    forall i | 0 <= i < |a| ensures a[i] != sep {
      assert !OccursAt(s, [sep], i);
      assert s[i..i + 1] == [a[i]];
    }
  }

  /** Splitting separator-free pieces joined with the separator gives the
      pieces back. */
  lemma {:induction false} SplitJoin(parts: seq<string>, sep: char)
    requires |parts| >= 1 && forall i :: 0 <= i < |parts| ==> sep !in parts[i]
    ensures Split(Join(parts, sep), sep) == parts
    decreases |parts|
  {
    if |parts| == 1 {
      SplitOnceAbsent(parts[0], [sep]);
    } else {
      var rest := Join(parts[1..], sep);
      assert Join(parts, sep) == parts[0] + [sep] + rest;
      assert sep !in parts[0];
      SplitOnceFirst(parts[0], sep, rest);
      assert forall i :: 0 <= i < |parts[1..]| ==> sep !in parts[1..][i];
      SplitJoin(parts[1..], sep);
      assert parts == [parts[0]] + parts[1..];
    }
  }

  /** Decimal renderings of numbers, one per number. */
  function ShowNats(xs: seq<nat>): (r: seq<string>)
    ensures |r| == |xs| && forall i :: 0 <= i < |xs| ==> r[i] == ShowNat(xs[i])
  {
    seq(|xs|, i requires 0 <= i < |xs| => ShowNat(xs[i]))
  }

  /** Decimal rendering of an integer: a `-` before a negative one. */
  function ShowInt(x: int): (s: string)
  {
    if x < 0 then ['-'] + ShowNat(-x) else ShowNat(x)
  }

  function ShowInts(xs: seq<int>): (r: seq<string>)
    ensures |r| == |xs| && forall i :: 0 <= i < |xs| ==> r[i] == ShowInt(xs[i])
  {
    seq(|xs|, i requires 0 <= i < |xs| => ShowInt(xs[i]))
  }

  /** No character other than a digit or a leading `-` occurs in a
      rendering. */
  lemma ShowIntChars(x: int, c: char)
    requires !IsDigit(c) && c != '-'
    ensures c !in ShowInt(x) && c !in ShowNat(Abs(x))
  {
    if x < 0 {
      assert ShowInt(x)[1..] == ShowNat(-x);
    }
  }

  lemma ParseShowInt(x: int)
    ensures ParseInt(ShowInt(x)) == Some(x)
  {
    if x < 0 {
      ParseShowNegative(-x);
    } else {
      ParseShowNat(x);
    }
  }

  /** Parsing the renderings gives the numbers back. */
  lemma ParseShowNats(xs: seq<nat>)
    ensures ParseNats(ShowNats(xs)) == Some(xs)
  {
    forall i | 0 <= i < |xs| ensures ParseNat(ShowNats(xs)[i]) == Some(xs[i]) {
      ParseShowNat(xs[i]);
    }
    var r := ParseNats(ShowNats(xs));
    assert r.Some? && |r.value| == |xs|;
    assert r.value == xs;
  }

  lemma ParseShowInts(xs: seq<int>)
    ensures ParseInts(ShowInts(xs)) == Some(xs)
  {
    forall i | 0 <= i < |xs| ensures ParseInt(ShowInts(xs)[i]) == Some(xs[i]) {
      ParseShowInt(xs[i]);
    }
    var r := ParseInts(ShowInts(xs));
    assert r.Some? && |r.value| == |xs|;
    assert r.value == xs;
  }

  /** Numbers joined with a separator that is neither a digit nor `-` split
      back into their renderings. */
  lemma SplitShowInts(xs: seq<int>, sep: char)
    requires |xs| >= 1 && !IsDigit(sep) && sep != '-'
    ensures Split(Join(ShowInts(xs), sep), sep) == ShowInts(xs)
  {
    forall i | 0 <= i < |xs| ensures sep !in ShowInts(xs)[i] {
      ShowIntChars(xs[i], sep);
    }
    SplitJoin(ShowInts(xs), sep);
  }

  lemma SplitShowNats(xs: seq<nat>, sep: char)
    requires |xs| >= 1 && !IsDigit(sep)
    ensures Split(Join(ShowNats(xs), sep), sep) == ShowNats(xs)
  {
    forall i | 0 <= i < |xs| ensures sep !in ShowNats(xs)[i] {
      assert forall k :: 0 <= k < |ShowNat(xs[i])| ==> IsDigit(ShowNat(xs[i])[k]);
    }
    SplitJoin(ShowNats(xs), sep);
  }

  /** `filter(|elem| !elem.is_empty())`: the non-empty words, in order. */
  function NonEmpty(words: seq<string>): (r: seq<string>)
    ensures |r| <= |words|
    ensures forall w :: w in r <==> w in words && w != []
  {
    if words == [] then []
    else NonEmpty(words[..|words| - 1]) + (if words[|words| - 1] == [] then [] else [words[|words| - 1]])
  }

  /** Words that are all non-empty pass the filter unchanged. */
  lemma {:induction false} NonEmptyKeeps(words: seq<string>)
    requires forall i :: 0 <= i < |words| ==> words[i] != []
    ensures NonEmpty(words) == words
  {
    if words != [] {
      var init := words[..|words| - 1];
      assert forall i :: 0 <= i < |init| ==> init[i] == words[i];
      NonEmptyKeeps(init);
      assert words == init + [words[|words| - 1]];
    }
  }

  predicate IsWhitespace(c: char) {
    c == ' ' || c == '\t' || c == '\n' || c == '\r'
  }

  /** `str::trim`: drops leading and trailing white space. */
  function Trim(s: string): (r: string)
    ensures |r| <= |s|
    ensures r == [] || (!IsWhitespace(r[0]) && !IsWhitespace(r[|r| - 1]))
    ensures forall i :: 0 <= i < |s| && !IsWhitespace(s[i]) ==> r != []
  {
    if s == [] then []
    else if IsWhitespace(s[0]) then Trim(s[1..])
    else if IsWhitespace(s[|s| - 1]) then
      var r := Trim(s[..|s| - 1]);
      assert !IsWhitespace(s[0]);
      r
    else s
  }

  /** Every string parsed as an unsigned number; `None` when any of them
      does not parse (the source unwraps, so that is a panic). */
  function ParseNats(items: seq<string>): (r: Option<seq<nat>>)
    ensures r.Some? ==> (|r.value| == |items|
      && forall i :: 0 <= i < |items| ==> ParseNat(items[i]) == Some(r.value[i]))
    ensures r.None? ==> exists i :: 0 <= i < |items| && ParseNat(items[i]).None?
    ensures r.Some? <==> forall i :: 0 <= i < |items| ==> ParseNat(items[i]).Some?
  {
    if items == [] then Some([])
    else
      match (ParseNats(items[..|items| - 1]), ParseNat(items[|items| - 1]))
      case (Some(init), Some(v)) => Some(init + [v])
      case _ => None
  }

  /** Every string parsed as a signed number, as `ParseNats`. */
  function ParseInts(items: seq<string>): (r: Option<seq<int>>)
    ensures r.Some? ==> (|r.value| == |items|
      && forall i :: 0 <= i < |items| ==> ParseInt(items[i]) == Some(r.value[i]))
    ensures r.None? ==> exists i :: 0 <= i < |items| && ParseInt(items[i]).None?
    ensures r.Some? <==> forall i :: 0 <= i < |items| ==> ParseInt(items[i]).Some?
  {
    if items == [] then Some([])
    else
      match (ParseInts(items[..|items| - 1]), ParseInt(items[|items| - 1]))
      case (Some(init), Some(v)) => Some(init + [v])
      case _ => None
  }

  // ---------------------------------------------------------------------
  // Sequences without repetition

  /** No element occurs twice. */
  predicate Distinct<T(==)>(s: seq<T>) {
    forall i, j :: 0 <= i < j < |s| ==> s[i] != s[j]
  }

  /** The set of elements of a sequence. */
  ghost function Elems<T>(s: seq<T>): set<T> {
    set x | x in s
  }

  /** A sequence has at most as many different elements as it is long,
      and exactly as many when no element repeats. */
  lemma {:induction false} DistinctCount<T>(s: seq<T>)
    ensures |Elems(s)| <= |s|
    ensures |Elems(s)| == |s| <==> Distinct(s)
  {
    if s != [] {
      var init := s[..|s| - 1];
      var last := s[|s| - 1];
      DistinctCount(init);
      assert s == init + [last];
      var chars := Elems(init);
      if last in init {
        assert Elems(s) == chars;
        var i :| 0 <= i < |init| && init[i] == last;
        assert s[i] == s[|s| - 1];
      } else {
        assert Elems(s) == chars + {last};
        if Distinct(init) {
          forall i, j | 0 <= i < j < |s|
            ensures s[i] != s[j]
          {
            if j < |s| - 1 {
              assert s[i] == init[i] && s[j] == init[j];
            } else {
              assert s[i] == init[i];
            }
          }
        } else {
          var i, j :| 0 <= i < j < |init| && init[i] == init[j];
          assert s[i] == s[j];
        }
      }
    }
  }

  // ---------------------------------------------------------------------
  // Sorting (`slice::sort`)

  predicate Sorted(s: seq<int>) {
    forall i, j :: 0 <= i < j < |s| ==> s[i] <= s[j]
  }

  function Insert(x: int, s: seq<int>): (r: seq<int>)
    requires Sorted(s)
    ensures Sorted(r) && multiset(r) == multiset(s) + multiset{x}
  {
    if s == [] || x <= s[0] then [x] + s
    else
      assert s == [s[0]] + s[1..];
      var t := Insert(x, s[1..]);
      LowerBound(s[0], x, s[1..], t);
      ConsSorted(s[0], t);
      assert multiset([s[0]] + t) == multiset{s[0]} + multiset(t);
      assert multiset(s) == multiset{s[0]} + multiset(s[1..]);
      [s[0]] + t
  }

  lemma ConsSorted(h: int, t: seq<int>)
    requires Sorted(t) && forall k :: 0 <= k < |t| ==> h <= t[k]
    ensures Sorted([h] + t)
  {
    var r := [h] + t;
    forall i, j | 0 <= i < j < |r| ensures r[i] <= r[j] {
      assert r[j] == t[j - 1];
      if i > 0 {
        assert r[i] == t[i - 1];
      }
    }
  }

  lemma LowerBound(lo: int, x: int, s: seq<int>, t: seq<int>)
    requires lo <= x && (forall k :: 0 <= k < |s| ==> lo <= s[k])
    requires multiset(t) == multiset(s) + multiset{x}
    ensures forall k :: 0 <= k < |t| ==> lo <= t[k]
  {
    forall k | 0 <= k < |t| ensures lo <= t[k] {
      assert t[k] in multiset(t);
    }
  }

  /** The ascending rearrangement of `s` that `slice::sort` produces. */
  function SortSeq(s: seq<int>): (r: seq<int>)
    ensures Sorted(r) && multiset(r) == multiset(s) && |r| == |s|
  {
    if s == [] then []
    else
      assert s == [s[0]] + s[1..];
      Insert(s[0], SortSeq(s[1..]))
  }

  // ---------------------------------------------------------------------
  // Bits

  function Pow2(k: nat): (r: nat)
    ensures r >= 1
  {
    if k == 0 then 1 else 2 * Pow2(k - 1)
  }

  /** Big-endian value of a sequence of bits. */
  function BitsValue(b: seq<bool>): nat
  {
    if b == [] then 0 else 2 * BitsValue(b[..|b| - 1]) + (if b[|b| - 1] then 1 else 0)
  }

  /** Shifting `x * p + y` left by one bit and adding `c`. */
  lemma ShiftIn(x: int, p: int, y: int, c: int)
    ensures 2 * (x * p + y) + c == x * (2 * p) + (2 * y + c)
  {
  }

  /** Appending bit `i` of `b` to the value of the bits before it, at weight `q`. */
  lemma BitStep(b: seq<bool>, i: nat, q: int)
    requires i < |b|
    ensures BitsValue(b[..i]) * (2 * q) + (if b[i] then q else 0) == BitsValue(b[..i + 1]) * q
  {
    assert b[..i + 1][..i] == b[..i];
    var v := BitsValue(b[..i]);
    var c := if b[i] then 1 else 0;
    assert BitsValue(b[..i + 1]) == 2 * v + c;
    assert (2 * v + c) * q == v * (2 * q) + c * q;
  }

  /** Shifting the next bit of `b` into the value of the bits before it. */
  lemma ShiftBit(b: seq<bool>, i: nat)
    requires i < |b|
    ensures BitsValue(b[..i + 1]) == 2 * BitsValue(b[..i]) + (if b[i] then 1 else 0)
  {
    assert b[..i + 1][..i] == b[..i];
  }

  /** A leading bit adds its weight to the value of the rest. */
  lemma {:induction false} ConsBit(x: bool, t: seq<bool>)
    ensures BitsValue([x] + t) == (if x then Pow2(|t|) else 0) + BitsValue(t)
  {
    var a := [x];
    BitsValueAppend(a, t);
    assert a[..|a| - 1] == [];
    if x {
      assert BitsValue(a) == 1;
    } else {
      assert BitsValue(a) == 0;
    }
  }

  lemma {:induction false} BitsValueAppend(a: seq<bool>, b: seq<bool>)
    ensures BitsValue(a + b) == BitsValue(a) * Pow2(|b|) + BitsValue(b)
    decreases |b|
  {
    if b == [] {
      assert a + b == a;
    } else {
      var b' := b[..|b| - 1];
      var c := if b[|b| - 1] then 1 else 0;
      assert (a + b)[..|a + b| - 1] == a + b';
      BitsValueAppend(a, b');
      ShiftIn(BitsValue(a), Pow2(|b'|), BitsValue(b'), c);
    }
  }

  // ---------------------------------------------------------------------
  // Arithmetic facts the solver does not find on its own

  lemma MulMono(a: nat, b: nat, c: nat)
    requires a <= b
    ensures a * c <= b * c
  {
  }

  lemma DivMono(a: nat, b: nat, d: nat)
    requires a <= b && d > 0
    ensures a / d <= b / d
  {
    var q1, q2 := a / d, b / d;
    assert a == q1 * d + a % d && b == q2 * d + b % d;
    if q1 > q2 {
      MulMono(q2 + 1, q1, d);
      assert false;
    }
  }

  lemma MulDivCancel(x: nat, d: nat)
    requires d > 0
    ensures x * d / d == x
    ensures d * x / d == x
  {
    var q, r := x * d / d, x * d % d;
    assert x * d == q * d + r && 0 <= r < d;
    if q < x {
      MulMono(q + 1, x, d);
      assert false;
    } else if q > x {
      MulMono(x + 1, q, d);
      assert false;
    }
  }

  lemma TakeSnoc<T>(s: seq<T>, k: nat)
    requires k < |s|
    ensures s[..k + 1] == s[..k] + [s[k]]
  {
  }

  lemma ButLast<T>(s: seq<T>)
    requires |s| > 0
    ensures s == s[..|s| - 1] + [s[|s| - 1]]
  {
  }

  lemma HeadTail<T>(s: seq<T>)
    requires |s| > 0
    ensures s == [s[0]] + s[1..]
  {
  }

  lemma PrefixOfSnoc<T>(s: seq<T>, x: T, k: nat)
    requires k < |s|
    ensures (s + [x])[k] == s[k] && (s + [x])[..k] == s[..k]
  {
  }

  /** Taking the first element of `s` out of a permutation `t` of it
      leaves a permutation of the rest. */
  lemma PermutationRemove<T>(s: seq<T>, t: seq<T>, k: nat)
    requires multiset(s) == multiset(t) && |s| > 0 && k < |t| && t[k] == s[0]
    ensures t == t[..k] + [t[k]] + t[k + 1..]
    ensures multiset(s[1..]) == multiset(t[..k] + t[k + 1..])
  {
    assert t == t[..k] + [t[k]] + t[k + 1..];
    assert s == [s[0]] + s[1..];
    assert multiset(s) == multiset{s[0]} + multiset(s[1..]);
    calc {
      multiset(t);
      multiset(t[..k] + [t[k]] + t[k + 1..]);
      multiset(t[..k]) + multiset{t[k]} + multiset(t[k + 1..]);
      multiset(t[..k] + t[k + 1..]) + multiset{t[k]};
    }
    assert multiset(s[1..]) == multiset(s) - multiset{s[0]};
    assert multiset(t[..k] + t[k + 1..]) == multiset(t) - multiset{t[k]};
  }

  lemma SliceAppend<T>(a: seq<T>, b: seq<T>, i: nat, j: nat)
    requires |a| <= i <= j <= |a| + |b|
    ensures (a + b)[i..j] == b[i - |a|..j - |a|]
  {
  }

  lemma TakeTake<T>(s: seq<T>, k: nat)
    requires k < |s|
    ensures s[..k + 1][..k] == s[..k]
  {
  }

  lemma SwapUnion<T>(x: multiset<T>, y: multiset<T>, z: multiset<T>)
    ensures x + (y + z) == y + (x + z)
  {
  }

  lemma RemoveSwap<T>(m: multiset<T>, p: T, q: T)
    ensures m - multiset{p} - multiset{q} == m - multiset{q} - multiset{p}
  {
  }

  /** Some element of a non-empty multiset, the same one every time. */
  ghost function Pick<T(!new)>(m: multiset<T>): (x: T)
    requires |m| > 0
    ensures x in m
  {
    var x :| x in m; x
  }

  lemma UnionAssoc<T>(x: multiset<T>, y: multiset<T>, z: multiset<T>)
    ensures x + (y + z) == (x + y) + z
  {
  }

  lemma RemoveUnion<T>(a: multiset<T>, b: multiset<T>, p: T)
    requires p in a
    ensures a + b - multiset{p} == (a - multiset{p}) + b
  {
  }

  /** The elements of `s` in reverse order (`Vec::reverse`). */
  function Reverse<T>(s: seq<T>): (r: seq<T>)
    ensures |r| == |s| && forall k :: 0 <= k < |s| ==> r[k] == s[|s| - 1 - k]
  {
    if s == [] then [] else [s[|s| - 1]] + Reverse(s[..|s| - 1])
  }

  lemma {:induction false} ReverseMultiset<T>(s: seq<T>)
    ensures multiset(Reverse(s)) == multiset(s)
  {
    if s != [] {
      var init := s[..|s| - 1];
      ReverseMultiset(init);
      assert s == init + [s[|s| - 1]];
      assert Reverse(s) == [s[|s| - 1]] + Reverse(init);
    }
  }
}
