/** Python `str` operations the core relies on: runs, `strip`, `split`, `join`, `str(int)`. */
module Strings {

  /**
    The end of the maximal run, starting at `i`, of characters `c` with
    `P(c) == want`; the greedy `X*` of a regular expression.
  */
  function RunEnd(s: string, i: nat, P: char -> bool, want: bool): (j: nat)
    requires i <= |s|
    ensures i <= j <= |s|
    ensures forall k :: i <= k < j ==> P(s[k]) == want
    ensures j == |s| || P(s[j]) != want
    decreases |s| - i
  {
    if i == |s| || P(s[i]) != want then i else RunEnd(s, i + 1, P, want)
  }

  predicate AllSpace(s: string, isSpace: char -> bool) {
    forall k :: 0 <= k < |s| ==> isSpace(s[k])
  }

  /** Number of whitespace characters at the end of `s`. */
  function TrailingSpaces(s: string, isSpace: char -> bool): (n: nat)
    ensures n <= |s|
    ensures forall k :: |s| - n <= k < |s| ==> isSpace(s[k])
    ensures n == |s| || !isSpace(s[|s| - 1 - n])
  {
    if s == [] || !isSpace(s[|s| - 1]) then 0
    else TrailingSpaces(s[..|s| - 1], isSpace) + 1
  }

  /**
    `s.strip()`: the result has no whitespace at either end, and `s` is the
    result with only whitespace added before and after it.
  */
  function Strip(s: string, isSpace: char -> bool): (r: string)
    ensures r == [] <==> AllSpace(s, isSpace)
    ensures r != [] ==> !isSpace(r[0]) && !isSpace(r[|r| - 1])
    ensures var a := RunEnd(s, 0, isSpace, true);
      a + |r| <= |s| && r == s[a..a + |r|] &&
      forall k :: a + |r| <= k < |s| ==> isSpace(s[k])
  {
    var a := RunEnd(s, 0, isSpace, true);
    if a == |s| then []
    else
      var t := TrailingSpaces(s[a..], isSpace);
      s[a..|s| - t]
  }

  /** `s.split()` with no separator: the maximal runs of non-whitespace characters, in order. */
  function Split(s: string, isSpace: char -> bool): (r: seq<string>)
    ensures forall w :: w in r ==> w != [] && forall k :: 0 <= k < |w| ==> !isSpace(w[k])
    decreases |s|
  {
    if s == [] then []
    else if isSpace(s[0]) then Split(s[1..], isSpace)
    else
      var j := RunEnd(s, 0, isSpace, false);
      [s[..j]] + Split(s[j..], isSpace)
  }

  /** The non-whitespace characters of `s`, in order. */
  function NonSpace(s: string, isSpace: char -> bool): string {
    if s == [] then [] else (if isSpace(s[0]) then [] else [s[0]]) + NonSpace(s[1..], isSpace)
  }

  function Concat(xs: seq<string>): string {
    if xs == [] then [] else xs[0] + Concat(xs[1..])
  }

  lemma ConcatAppend(xs: seq<string>, ys: seq<string>)
    ensures Concat(xs + ys) == Concat(xs) + Concat(ys)
  {
    if xs == [] {
      assert xs + ys == ys;
    } else {
      assert (xs + ys)[0] == xs[0] && (xs + ys)[1..] == xs[1..] + ys;
      ConcatAppend(xs[1..], ys);
    }
  }

  lemma Concat2(a: string, b: string)
    ensures Concat([a, b]) == a + b
  {
    assert [b][1..] == [];
    assert Concat([b]) == b;
    assert [a, b][1..] == [b];
  }

  lemma Concat3(a: string, b: string, c: string)
    ensures Concat([a, b, c]) == a + b + c
  {
    Concat2(b, c);
    assert [a, b, c][1..] == [b, c];
  }

  lemma Concat4(a: string, b: string, c: string, d: string)
    ensures Concat([a, b, c, d]) == a + b + c + d
  {
    Concat3(b, c, d);
    assert [a, b, c, d][1..] == [b, c, d];
  }

  lemma Concat7(a: string, b: string, c: string, d: string, e: string, f: string, g: string)
    ensures Concat([a, b, c, d, e, f, g]) == a + b + c + d + e + f + g
  {
    Concat4(a, b, c, d);
    Concat3(e, f, g);
    assert [a, b, c, d, e, f, g] == [a, b, c, d] + [e, f, g];
    ConcatAppend([a, b, c, d], [e, f, g]);
  }

  /** Cutting a list of pieces at `i` and `j` cuts their concatenation; the middle part occurs where the first part ends. */
  lemma ConcatWindow(xs: seq<string>, i: nat, j: nat)
    requires i <= j <= |xs|
    ensures Concat(xs) == Concat(xs[..i]) + Concat(xs[i..j]) + Concat(xs[j..])
    ensures OccursAt(Concat(xs), Concat(xs[i..j]), |Concat(xs[..i])|)
  {
    assert xs == xs[..i] + xs[i..j] + xs[j..];
    ConcatAppend(xs[..i] + xs[i..j], xs[j..]);
    ConcatAppend(xs[..i], xs[i..j]);
    OccursAfter(Concat(xs[..i]), Concat(xs[i..j]), Concat(xs[j..]));
  }

  predicate IsSuffix(x: string, s: string) {
    |x| <= |s| && s[|s| - |x|..] == x
  }

  /** The first three pieces start the concatenation. */
  lemma ConcatHead3(xs: seq<string>)
    requires |xs| >= 3
    ensures IsPrefix(xs[0] + xs[1] + xs[2], Concat(xs))
  {
    ConcatWindow(xs, 0, 3);
    assert xs[..3] == [xs[0], xs[1], xs[2]];
    Concat3(xs[0], xs[1], xs[2]);
  }

  /** The last piece ends the concatenation. */
  lemma ConcatLast(xs: seq<string>)
    requires |xs| >= 1
    ensures IsSuffix(xs[|xs| - 1], Concat(xs))
  {
    var n := |xs| - 1;
    assert xs == xs[..n] + [xs[n]];
    ConcatAppend(xs[..n], [xs[n]]);
    assert Concat([xs[n]]) == xs[n] by { assert [xs[n]][1..] == []; }
    var a := Concat(xs[..n]);
    assert (a + xs[n])[|a|..] == xs[n];
  }

  /** A run of neighbouring pieces occurs in the concatenation. */
  lemma ConcatContains(xs: seq<string>, i: nat, j: nat)
    requires i <= j <= |xs|
    ensures Contains(Concat(xs), Concat(xs[i..j]))
  {
    ConcatWindow(xs, i, j);
    assert OccursAt(Concat(xs), Concat(xs[i..j]), |Concat(xs[..i])|);
  }

  lemma ConcatSlice4(xs: seq<string>, i: nat)
    requires i + 4 <= |xs|
    ensures Concat(xs[i..i + 4]) == xs[i] + xs[i + 1] + xs[i + 2] + xs[i + 3]
  {
    assert xs[i..i + 4] == [xs[i], xs[i + 1], xs[i + 2], xs[i + 3]];
    Concat4(xs[i], xs[i + 1], xs[i + 2], xs[i + 3]);
  }

  lemma ConcatSlice7(xs: seq<string>, i: nat)
    requires i + 7 <= |xs|
    ensures Concat(xs[i..i + 7]) == xs[i] + xs[i + 1] + xs[i + 2] + xs[i + 3] + xs[i + 4] + xs[i + 5] + xs[i + 6]
  {
    assert xs[i..i + 7] == [xs[i], xs[i + 1], xs[i + 2], xs[i + 3], xs[i + 4], xs[i + 5], xs[i + 6]];
    Concat7(xs[i], xs[i + 1], xs[i + 2], xs[i + 3], xs[i + 4], xs[i + 5], xs[i + 6]);
  }

  /** Two neighbouring pieces occur together in the concatenation. */
  lemma ConcatContains2(xs: seq<string>, i: nat)
    requires i + 2 <= |xs|
    ensures Contains(Concat(xs), xs[i] + xs[i + 1])
  {
    assert xs[i..i + 2] == [xs[i], xs[i + 1]];
    Concat2(xs[i], xs[i + 1]);
    ConcatContains(xs, i, i + 2);
  }

  /** Four neighbouring pieces occur together in the concatenation. */
  lemma ConcatContains4(xs: seq<string>, i: nat)
    requires i + 4 <= |xs|
    ensures Contains(Concat(xs), xs[i] + xs[i + 1] + xs[i + 2] + xs[i + 3])
  {
    ConcatSlice4(xs, i);
    ConcatContains(xs, i, i + 4);
  }

  /** Seven neighbouring pieces occur together in the concatenation. */
  lemma ConcatContains7(xs: seq<string>, i: nat)
    requires i + 7 <= |xs|
    ensures Contains(Concat(xs), xs[i] + xs[i + 1] + xs[i + 2] + xs[i + 3] + xs[i + 4] + xs[i + 5] + xs[i + 6])
  {
    ConcatSlice7(xs, i);
    ConcatContains(xs, i, i + 7);
  }

  lemma NonSpaceAppend(a: string, b: string, isSpace: char -> bool)
    ensures NonSpace(a + b, isSpace) == NonSpace(a, isSpace) + NonSpace(b, isSpace)
  {
    if a == [] {
      assert a + b == b;
    } else {
      assert (a + b)[0] == a[0] && (a + b)[1..] == a[1..] + b;
      NonSpaceAppend(a[1..], b, isSpace);
    }
  }

  lemma {:induction false} NonSpaceOfRun(s: string, isSpace: char -> bool, j: nat)
    requires j <= |s|
    requires forall k :: 0 <= k < j ==> !isSpace(s[k])
    ensures NonSpace(s[..j], isSpace) == s[..j]
  {
    if j > 0 {
      assert s[..j][1..] == s[1..][..j - 1];
      NonSpaceOfRun(s[1..], isSpace, j - 1);
    }
  }

  /** `split()` loses exactly the whitespace: its pieces put together are the non-whitespace characters. */
  lemma {:induction false} SplitKeepsNonSpace(s: string, isSpace: char -> bool)
    ensures Concat(Split(s, isSpace)) == NonSpace(s, isSpace)
    decreases |s|
  {
    if s == [] {
    } else if isSpace(s[0]) {
      SplitKeepsNonSpace(s[1..], isSpace);
    } else {
      var j := RunEnd(s, 0, isSpace, false);
      SplitKeepsNonSpace(s[j..], isSpace);
      calc {
        Concat(Split(s, isSpace));
        s[..j] + Concat(Split(s[j..], isSpace));
        { NonSpaceOfRun(s, isSpace, j); }
        NonSpace(s[..j], isSpace) + NonSpace(s[j..], isSpace);
        { NonSpaceAppend(s[..j], s[j..], isSpace); assert s[..j] + s[j..] == s; }
        NonSpace(s, isSpace);
      }
    }
  }

  /** `sep.join(xs)`. */
  function Join(sep: string, xs: seq<string>): string {
    if xs == [] then ""
    else if |xs| == 1 then xs[0]
    else xs[0] + sep + Join(sep, xs[1..])
  }

  predicate IsPrefix(p: string, s: string) {
    |p| <= |s| && s[..|p|] == p
  }

  /** `sep.join`: one more item adds the separator and the item at the end. */
  lemma {:induction false} JoinSnoc(sep: string, xs: seq<string>, x: string)
    requires xs != []
    ensures Join(sep, xs + [x]) == Join(sep, xs) + sep + x
  {
    if |xs| == 1 {
      assert xs + [x] == [xs[0], x];
    } else {
      assert (xs + [x])[1..] == xs[1..] + [x];
      JoinSnoc(sep, xs[1..], x);
    }
  }

  /** Joining the first `k` items gives a prefix of joining all of them. */
  lemma {:induction false} JoinPrefix(sep: string, xs: seq<string>, k: nat)
    requires k <= |xs|
    ensures IsPrefix(Join(sep, xs[..k]), Join(sep, xs))
  {
    if k == 0 {
    } else if k == 1 {
      assert xs[..1] == [xs[0]];
    } else {
      assert xs[..k][1..] == xs[1..][..k - 1];
      JoinPrefix(sep, xs[1..], k - 1);
    }
  }

  /** The first `n` items of `xs` (Python's `xs[:n]`). */
  function Take<T>(xs: seq<T>, n: nat): (r: seq<T>)
    ensures |r| == if n < |xs| then n else |xs|
    ensures r == xs[..|r|]
  {
    if n < |xs| then xs[..n] else xs
  }

  /** `t` occurs in `s` at index `i`. */
  predicate OccursAt(s: string, t: string, i: nat) {
    i + |t| <= |s| && s[i..i + |t|] == t
  }

  /** A text's two ends; what starts the middle occurs right after the head. */
  lemma ThreeParts(head: string, mid: string, tail: string, before: string, t: string)
    requires IsPrefix(before + t, mid)
    ensures IsPrefix(head, head + mid + tail)
    ensures IsSuffix(tail, head + mid + tail)
    ensures OccursAt(head + mid + tail, t, |head| + |before|)
  {
    var s := head + mid + tail;
    assert s[..|head|] == head;
    assert s[|s| - |tail|..] == tail;
    assert s[|head|..|head| + |mid|] == mid;
    assert mid[|before|..|before| + |t|] == (before + t)[|before|..] == t;
  }

  predicate Contains(s: string, t: string) {
    exists i: nat | i <= |s| :: OccursAt(s, t, i)
  }

  /** What a prefix contains, the whole text contains. */
  lemma ContainsWithin(p: string, s: string, t: string)
    requires IsPrefix(p, s) && Contains(p, t)
    ensures Contains(s, t)
  {
    var i: nat :| i <= |p| && OccursAt(p, t, i);
    assert s[i..i + |t|] == p[i..i + |t|];
    assert OccursAt(s, t, i);
  }

  lemma OccursAfter(a: string, t: string, b: string)
    ensures OccursAt(a + t + b, t, |a|)
  {
    assert (a + t + b)[|a|..|a| + |t|] == t;
  }

  function DigitChar(d: nat): char
    requires d < 10
  {
    ('0' as int + d) as char
  }

  function DigitValue(c: char): int {
    c as int - '0' as int
  }

  /** `str(n)` for a non-negative integer: its decimal digits, without leading zeros. */
  function NatToString(n: nat): (r: string)
    ensures r != [] && forall k :: 0 <= k < |r| ==> '0' <= r[k] <= '9'
    ensures r[0] == '0' ==> r == "0"
  {
    if n < 10 then [DigitChar(n)] else NatToString(n / 10) + [DigitChar(n % 10)]
  }

  /** `str(i)` for any integer. */
  function IntToString(i: int): string {
    if i < 0 then "-" + NatToString(-i) else NatToString(i)
  }

  /** Reads a sequence of decimal digits. */
  function DecimalValue(s: string): int {
    if s == [] then 0 else DecimalValue(s[..|s| - 1]) * 10 + DigitValue(s[|s| - 1])
  }

  lemma {:induction false} NatToStringRoundTrip(n: nat)
    ensures DecimalValue(NatToString(n)) == n
  {
    if n >= 10 {
      NatToStringRoundTrip(n / 10);
      var r := NatToString(n);
      assert r[..|r| - 1] == NatToString(n / 10);
    }
  }

  lemma NegativeSign(i: int)
    ensures IntToString(i)[0] == '-' <==> i < 0
  {
  }

  /** Different integers print differently. */
  lemma IntToStringInjective(a: int, b: int)
    requires IntToString(a) == IntToString(b)
    ensures a == b
  {
    NegativeSign(a);
    NegativeSign(b);
    assert a < 0 <==> b < 0;
    if a < 0 {
      assert NatToString(-a) == IntToString(a)[1..] == IntToString(b)[1..] == NatToString(-b);
      NatToStringInjective(-a, -b);
    } else {
      assert NatToString(a) == IntToString(a) == IntToString(b) == NatToString(b);
      NatToStringInjective(a, b);
    }
  }

  lemma NatToStringInjective(m: nat, n: nat)
    requires NatToString(m) == NatToString(n)
    ensures m == n
  {
    NatToStringRoundTrip(m);
    NatToStringRoundTrip(n);
  }

  /** A run that ends where `P` stops giving `want` is the greedy run. */
  lemma {:induction false} RunEndIs(s: string, i: nat, P: char -> bool, want: bool, j: nat)
    requires i <= j <= |s|
    requires forall k :: i <= k < j ==> P(s[k]) == want
    requires j == |s| || P(s[j]) != want
    ensures RunEnd(s, i, P, want) == j
    decreases j - i
  {
    if i < j {
      RunEndIs(s, i + 1, P, want, j);
    }
  }

  /** Stripping a text with no whitespace at either end leaves it as it is. */
  lemma StripUnchanged(s: string, isSpace: char -> bool)
    requires s == [] || (!isSpace(s[0]) && !isSpace(s[|s| - 1]))
    ensures Strip(s, isSpace) == s
  {
    if s != [] {
      assert RunEnd(s, 0, isSpace, true) == 0;
      assert s[0..] == s;
      assert TrailingSpaces(s, isSpace) == 0;
    }
  }

  /** `split()` takes a leading word whole when whitespace or the end follows it. */
  lemma SplitWord(w: string, rest: string, isSpace: char -> bool)
    requires w != [] && forall k :: 0 <= k < |w| ==> !isSpace(w[k])
    requires rest == [] || isSpace(rest[0])
    ensures Split(w + rest, isSpace) == [w] + Split(rest, isSpace)
  {
    var s := w + rest;
    RunEndIs(s, 0, isSpace, false, |w|);
    assert s[..|w|] == w && s[|w|..] == rest;
  }

  /** `split()` skips leading whitespace. */
  lemma SplitSpace(c: char, rest: string, isSpace: char -> bool)
    requires isSpace(c)
    ensures Split([c] + rest, isSpace) == Split(rest, isSpace)
  {
    assert ([c] + rest)[1..] == rest;
  }

  /** `split()` of a word, a blank and the rest: the word, then the words of the rest. */
  lemma SplitWordBlank(w: string, rest: string, isSpace: char -> bool)
    requires isSpace(' ')
    requires w != [] && forall k :: 0 <= k < |w| ==> !isSpace(w[k])
    ensures Split(w + " " + rest, isSpace) == [w] + Split(rest, isSpace)
  {
    var r := " " + rest;
    assert w + " " + rest == w + r;
    SplitWord(w, r, isSpace);
    assert r == [' '] + rest;
    SplitSpace(' ', rest, isSpace);
  }

  /** `split()` of a single word. */
  lemma SplitOneWord(w: string, isSpace: char -> bool)
    requires w != [] && forall k :: 0 <= k < |w| ==> !isSpace(w[k])
    ensures Split(w, isSpace) == [w]
  {
    SplitWord(w, "", isSpace);
    assert w + "" == w;
  }

  /** No character of `w` is whitespace, checked one character at a time. */
  predicate Blankless(w: string, isSpace: char -> bool) {
    w == [] || (!isSpace(w[0]) && Blankless(w[1..], isSpace))
  }

  lemma {:induction false} BlanklessAll(w: string, isSpace: char -> bool)
    ensures Blankless(w, isSpace) <==> forall k :: 0 <= k < |w| ==> !isSpace(w[k])
  {
    if w != [] {
      BlanklessAll(w[1..], isSpace);
      assert forall k :: 1 <= k < |w| ==> w[k] == w[1..][k - 1];
    }
  }
}
