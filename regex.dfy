/**
  The regular expressions of the profiler and the citation checker, each as a
  hand-written matcher at one position, and `re.findall`'s left-to-right scan
  for non-overlapping matches.

  A matcher takes each greedy repetition to its longest run and commits to an
  optional group once it matches.  This is what Python's backtracking engine
  finds, because in every pattern the character that must follow a run can
  never belong to that run: the Turkish letter classes, the literal
  punctuation, whitespace and digits are pairwise disjoint, and the letters
  are word characters.
*/
module Regex {
  import opened Wrappers
  import opened Chars
  import opened Strings

  datatype Pattern =
    | Word           // \b\w+\b
    | InText         // \([A-ZÇĞİÖŞÜ][a-zçğıöşü]+(?:\s+(?:ve|and|&)\s+[A-ZÇĞİÖŞÜ][a-zçğıöşü]+)?,\s*\d{4}\)
    | InTextCapture  // the same with groups (author) and (year), and an optional ,\s*s\.\s*(\d+(?:-\d+)?) before `)`
    | EtAl           // \bet\s+al\.\B
    | PageRef        // s\.\s*\d+
    | Term           // \b[A-ZÇĞİÖŞÜ][a-zçğıöşü]{3,}\b
    | Caption        // Görsel\s+\d+\.\s+[A-ZÇĞİÖŞÜ]

  /** One match: its span `s[start..end]` and its capture groups (`""` for a group that did not take part). */
  datatype Found = Found(start: nat, end: nat, groups: seq<string>)

  predicate WordAt(s: string, i: int, rules: CharRules) {
    0 <= i < |s| && rules.isWord(s[i])
  }

  /** `\b` at position `i`; its negation is `\B`. */
  predicate Boundary(s: string, i: int, rules: CharRules) {
    WordAt(s, i - 1, rules) != WordAt(s, i, rules)
  }

  /** At either end of the text, `\b` holds exactly next to a word character. */
  lemma BoundaryAtEnds(s: string, rules: CharRules)
    ensures Boundary(s, 0, rules) <==> |s| > 0 && rules.isWord(s[0])
    ensures Boundary(s, |s|, rules) <==> |s| > 0 && rules.isWord(s[|s| - 1])
  {
  }

  predicate LitAt(s: string, i: nat, lit: string) {
    i + |lit| <= |s| && s[i..i + |lit|] == lit
  }

  /** The single character `c` at position `i`. */
  predicate CharAt(s: string, i: nat, c: char) {
    i < |s| && s[i] == c
  }

  /** A name, `[A-ZÇĞİÖŞÜ][a-zçğıöşü]+`. */
  predicate IsName(t: string) {
    |t| >= 2 && IsUpperTr(t[0]) && forall k :: 1 <= k < |t| ==> IsLowerTr(t[k])
  }

  /** `ve|and|&` */
  predicate IsConjunction(t: string) {
    t == "ve" || t == "and" || t == "&"
  }

  /** `\s+` */
  predicate IsBlanks(t: string, rules: CharRules) {
    t != [] && forall k :: 0 <= k < |t| ==> rules.isSpace(t[k])
  }

  /** `\s+(?:ve|and|&)\s+` and a second name. */
  ghost predicate CoAuthorShape(t: string, rules: CharRules) {
    exists b1, c, b2, n :: t == b1 + c + b2 + n &&
      IsBlanks(b1, rules) && IsConjunction(c) && IsBlanks(b2, rules) && IsName(n)
  }

  /** What the author group of the in-text patterns accepts: a name, alone or followed by a co-author. */
  ghost predicate AuthorShape(t: string, rules: CharRules) {
    IsName(t) || exists n, r :: t == n + r && IsName(n) && CoAuthorShape(r, rules)
  }

  /** `[A-ZÇĞİÖŞÜ][a-zçğıöşü]+` at `i`: its end. */
  function NameEnd(s: string, i: nat): (e: Option<nat>)
    requires i <= |s|
    ensures e.Some? ==> i + 2 <= e.value <= |s| && IsUpperTr(s[i])
    ensures e.Some? ==> IsName(s[i..e.value])
  {
    if i < |s| && IsUpperTr(s[i]) then
      var j := RunEnd(s, i + 1, IsLowerTr, true);
      if j > i + 1 then Some(j) else None
    else None
  }

  /** `ve|and|&` at `i`: its end. */
  function ConjunctionEnd(s: string, i: nat): (e: Option<nat>)
    ensures e.Some? ==> i < e.value <= |s| && IsConjunction(s[i..e.value])
  {
    if CharAt(s, i, 'v') && CharAt(s, i + 1, 'e') then Some(i + 2)
    else if CharAt(s, i, 'a') && CharAt(s, i + 1, 'n') && CharAt(s, i + 2, 'd') then Some(i + 3)
    else if CharAt(s, i, '&') then Some(i + 1)
    else None
  }

  /** `\s+(?:ve|and|&)\s+[A-ZÇĞİÖŞÜ][a-zçğıöşü]+` at `i`: its end. */
  function CoAuthorEnd(s: string, i: nat, rules: CharRules): (e: Option<nat>)
    requires i <= |s|
    ensures e.Some? ==> i < e.value <= |s| && CoAuthorShape(s[i..e.value], rules)
  {
    var a := RunEnd(s, i, rules.isSpace, true);
    if a == i then None
    else match ConjunctionEnd(s, a)
      case None => None
      case Some(c) =>
        var b := RunEnd(s, c, rules.isSpace, true);
        if b == c then None
        else match NameEnd(s, b)
          case None => None
          case Some(e) =>
            CoAuthorParts(s, i, a, c, b, e, rules);
            Some(e)
  }

  /** The four parts of a co-author found at their places make up its shape. */
  lemma CoAuthorParts(s: string, i: nat, a: nat, c: nat, b: nat, e: nat, rules: CharRules)
    requires i < a < c < b < e <= |s|
    requires forall k :: i <= k < b ==> (k < a || c <= k) ==> rules.isSpace(s[k])
    requires IsConjunction(s[a..c]) && IsName(s[b..e])
    ensures CoAuthorShape(s[i..e], rules)
  {
    assert s[i..e] == s[i..a] + s[a..c] + s[c..b] + s[b..e];
    assert IsBlanks(s[i..a], rules);
    assert IsBlanks(s[c..b], rules);
  }

  /** The author group: a name, optionally followed by a second one. */
  function AuthorEnd(s: string, i: nat, rules: CharRules): (e: Option<nat>)
    requires i <= |s|
    ensures e.Some? ==> i + 2 <= e.value <= |s| && IsUpperTr(s[i])
    ensures e.Some? ==> AuthorShape(s[i..e.value], rules)
  {
    match NameEnd(s, i)
    case None => None
    case Some(a) =>
      match CoAuthorEnd(s, a, rules)
      case Some(b) =>
        AuthorParts(s, i, a, b, rules);
        Some(b)
      case None => Some(a)
  }

  /** A name followed by a co-author makes up an author group. */
  lemma AuthorParts(s: string, i: nat, a: nat, b: nat, rules: CharRules)
    requires i <= a <= b <= |s| && IsName(s[i..a]) && CoAuthorShape(s[a..b], rules)
    ensures AuthorShape(s[i..b], rules)
  {
    assert s[i..b] == s[i..a] + s[a..b];
  }

  predicate DigitsAt(s: string, i: nat, n: nat, rules: CharRules) {
    i + n <= |s| && forall k :: i <= k < i + n ==> rules.isDigit(s[k])
  }

  /** `,\s*\d{4}` at `i`: the start of the year. */
  function YearStart(s: string, i: nat, rules: CharRules): (d: Option<nat>)
    requires i <= |s|
    ensures d.Some? ==> i < d.value && DigitsAt(s, d.value, 4, rules) && s[i] == ','
    ensures d.Some? ==> forall k :: i < k < d.value ==> rules.isSpace(s[k])
  {
    if i < |s| && s[i] == ',' then
      var d := RunEnd(s, i + 1, rules.isSpace, true);
      if DigitsAt(s, d, 4, rules) then Some(d) else None
    else None
  }

  /** `,\s*s\.\s*(\d+(?:-\d+)?)` at `i`: the span of the page group. */
  function PagesAt(s: string, i: nat, rules: CharRules): (g: Option<(nat, nat)>)
    requires i <= |s|
    ensures g.Some? ==> i < g.value.0 < g.value.1 <= |s|
  {
    if i < |s| && s[i] == ',' then
      var a := RunEnd(s, i + 1, rules.isSpace, true);
      if CharAt(s, a, 's') && CharAt(s, a + 1, '.') then
        var b := RunEnd(s, a + 2, rules.isSpace, true);
        var c := RunEnd(s, b, rules.isDigit, true);
        if c == b then None
        else if c < |s| && s[c] == '-' then
          var d := RunEnd(s, c + 1, rules.isDigit, true);
          if d > c + 1 then Some((b, d)) else Some((b, c))
        else Some((b, c))
      else None
    else None
  }

  /** After the year at `d`: the optional page group, then `)`. */
  function InTextClose(s: string, i: nat, a: nat, d: nat, rules: CharRules, withPages: bool): (m: Option<Found>)
    requires i + 3 <= a <= d && d + 4 <= |s|
    requires IsUpperTr(s[i + 1]) && AuthorShape(s[i + 1..a], rules) && DigitsAt(s, d, 4, rules)
    ensures m.Some? ==> m.value.start == i < m.value.end <= |s| && s[m.value.end - 1] == ')'
    ensures m.Some? && withPages ==> GroupsShaped(m.value.groups, rules)
  {
    var y := d + 4;
    var pages := if withPages then PagesAt(s, y, rules) else None;
    var close := if pages.Some? then pages.value.1 else y;
    var pageText := if pages.Some? then s[pages.value.0..pages.value.1] else "";
    if close < |s| && s[close] == ')' then
      var groups := [s[i + 1..a], s[d..y], pageText];
      GroupsShape(s, i, a, d, groups, rules);
      Some(Found(i, close + 1, if withPages then groups else []))
    else None
  }

  /**
    Capture groups as the capturing in-text pattern leaves them: three of
    them, an author of the author group's shape, and a year of four digits.
  */
  ghost predicate GroupsShaped(groups: seq<string>, rules: CharRules) {
    |groups| == 3 &&
    |groups[0]| >= 2 && IsUpperTr(groups[0][0]) && AuthorShape(groups[0], rules) &&
    |groups[1]| == 4 && forall k :: 0 <= k < 4 ==> rules.isDigit(groups[1][k])
  }

  function MatchInText(s: string, i: nat, rules: CharRules, withPages: bool): (m: Option<Found>)
    requires i <= |s|
    ensures m.Some? ==> m.value.start == i < m.value.end <= |s| && s[i] == '(' && s[m.value.end - 1] == ')'
    ensures m.Some? && withPages ==> GroupsShaped(m.value.groups, rules)
  {
    if i < |s| && s[i] == '(' then InTextAfterOpen(s, i, rules, withPages) else None
  }

  /** The in-text patterns after the `(` at `i`: the author group, the year, then what closes them. */
  function InTextAfterOpen(s: string, i: nat, rules: CharRules, withPages: bool): (m: Option<Found>)
    requires i < |s|
    ensures m.Some? ==> m.value.start == i < m.value.end <= |s| && s[m.value.end - 1] == ')'
    ensures m.Some? && withPages ==> GroupsShaped(m.value.groups, rules)
  {
    var author := AuthorEnd(s, i + 1, rules);
    if author.None? then None else InTextAfterAuthor(s, i, author.value, rules, withPages)
  }

  /** The in-text patterns after the author group that ends at `a`: the year, then what closes them. */
  function InTextAfterAuthor(s: string, i: nat, a: nat, rules: CharRules, withPages: bool): (m: Option<Found>)
    requires i + 3 <= a <= |s| && IsUpperTr(s[i + 1]) && AuthorShape(s[i + 1..a], rules)
    ensures m.Some? ==> m.value.start == i < m.value.end <= |s| && s[m.value.end - 1] == ')'
    ensures m.Some? && withPages ==> GroupsShaped(m.value.groups, rules)
  {
    match YearStart(s, a, rules)
    case None => None
    case Some(d) => InTextClose(s, i, a, d, rules, withPages)
  }

  function MatchWord(s: string, i: nat, rules: CharRules): (m: Option<Found>)
    requires i <= |s|
    ensures m.Some? ==> m.value.start == i < m.value.end <= |s|
  {
    if Boundary(s, i, rules) && i < |s| && rules.isWord(s[i]) then
      Some(Found(i, RunEnd(s, i, rules.isWord, true), []))
    else None
  }

  function MatchEtAl(s: string, i: nat, rules: CharRules): (m: Option<Found>)
    requires i <= |s|
    ensures m.Some? ==> m.value.start == i < m.value.end <= |s|
  {
    if Boundary(s, i, rules) && LitAt(s, i, "et") then
      var a := RunEnd(s, i + 2, rules.isSpace, true);
      if a > i + 2 && LitAt(s, a, "al.") && !Boundary(s, a + 3, rules) then Some(Found(i, a + 3, []))
      else None
    else None
  }

  function MatchPageRef(s: string, i: nat, rules: CharRules): (m: Option<Found>)
    requires i <= |s|
    ensures m.Some? ==> m.value.start == i < m.value.end <= |s|
  {
    if CharAt(s, i, 's') && CharAt(s, i + 1, '.') then
      var a := RunEnd(s, i + 2, rules.isSpace, true);
      var b := RunEnd(s, a, rules.isDigit, true);
      if b > a then Some(Found(i, b, [])) else None
    else None
  }

  function MatchTerm(s: string, i: nat, rules: CharRules): (m: Option<Found>)
    requires i <= |s|
    ensures m.Some? ==> m.value.start == i < m.value.end <= |s|
  {
    if Boundary(s, i, rules) && i < |s| && IsUpperTr(s[i]) then
      var j := RunEnd(s, i + 1, IsLowerTr, true);
      if j >= i + 4 && Boundary(s, j, rules) then Some(Found(i, j, [])) else None
    else None
  }

  function MatchCaption(s: string, i: nat, rules: CharRules): (m: Option<Found>)
    requires i <= |s|
    ensures m.Some? ==> m.value.start == i < m.value.end <= |s|
  {
    if LitAt(s, i, "Görsel") then
      var a := RunEnd(s, i + 6, rules.isSpace, true);
      var b := RunEnd(s, a, rules.isDigit, true);
      if a > i + 6 && b > a && b < |s| && s[b] == '.' then
        var c := RunEnd(s, b + 1, rules.isSpace, true);
        if c > b + 1 && c < |s| && IsUpperTr(s[c]) then Some(Found(i, c + 1, [])) else None
      else None
    else None
  }

  /**
    The profiler's in-text pattern matches exactly where the checker's
    capturing pattern matches with an empty page group, and over the same
    span: a page reference between the year and `)` is never counted.
  */
  lemma InTextWithoutPages(s: string, i: nat, rules: CharRules)
    requires i <= |s|
    ensures var plain := MatchInText(s, i, rules, false);
      var full := MatchInText(s, i, rules, true);
      (plain.Some? <==> full.Some? && full.value.groups[2] == "") &&
      (plain.Some? ==> plain.value.end == full.value.end)
  {
  }

  /** Author and year groups taken from their places in the text. */
  lemma GroupsShape(s: string, i: nat, a: nat, d: nat, groups: seq<string>, rules: CharRules)
    requires i + 3 <= a <= d && d + 4 <= |s| && IsUpperTr(s[i + 1]) && DigitsAt(s, d, 4, rules)
    requires AuthorShape(s[i + 1..a], rules)
    requires |groups| == 3 && groups[0] == s[i + 1..a] && groups[1] == s[d..d + 4]
    ensures GroupsShaped(groups, rules)
  {
    var y := groups[1];
    forall k | 0 <= k < 4 ensures rules.isDigit(y[k]) {
      assert y[k] == s[d + k];
    }
  }

  /** The match of `pat` that starts at position `i` of `s`, if any. */
  function MatchAt(pat: Pattern, s: string, rules: CharRules, i: nat): (m: Option<Found>)
    requires i <= |s|
    ensures m.Some? ==> m.value.start == i < m.value.end <= |s|
    ensures m.Some? && pat == InTextCapture ==>
      GroupsShaped(m.value.groups, rules) && s[i] == '(' && s[m.value.end - 1] == ')'
  {
    if pat == InTextCapture then MatchInText(s, i, rules, true)
    else
      match pat
      case Word => MatchWord(s, i, rules)
      case InText => MatchInText(s, i, rules, false)
      case EtAl => MatchEtAl(s, i, rules)
      case PageRef => MatchPageRef(s, i, rules)
      case Term => MatchTerm(s, i, rules)
      case Caption => MatchCaption(s, i, rules)
  }

  /** Once the author group and the year are found, the rest of the in-text match is `InTextClose`. */
  lemma InTextParts(s: string, i: nat, rules: CharRules, withPages: bool, a: nat, d: nat)
    requires i < |s| && s[i] == '('
    requires AuthorEnd(s, i + 1, rules) == Some(a) && YearStart(s, a, rules) == Some(d)
    ensures i + 3 <= a <= d && d + 4 <= |s| && IsUpperTr(s[i + 1]) && DigitsAt(s, d, 4, rules)
    ensures AuthorShape(s[i + 1..a], rules)
    ensures MatchInText(s, i, rules, withPages) == InTextClose(s, i, a, d, rules, withPages)
  {
  }

  /** A page group followed by `)` closes the match after it, with the page digits as the third group. */
  lemma InTextPaged(s: string, i: nat, a: nat, d: nat, b: nat, c: nat, rules: CharRules)
    requires i + 3 <= a <= d && d + 4 <= |s|
    requires IsUpperTr(s[i + 1]) && AuthorShape(s[i + 1..a], rules) && DigitsAt(s, d, 4, rules)
    requires PagesAt(s, d + 4, rules) == Some((b, c)) && c < |s| && s[c] == ')'
    ensures InTextClose(s, i, a, d, rules, true) == Some(Found(i, c + 1, [s[i + 1..a], s[d..d + 4], s[b..c]]))
  {
  }

  /** A `)` right after the year closes both patterns' match there, with an empty page group. */
  lemma InTextPlain(s: string, i: nat, a: nat, d: nat, rules: CharRules)
    requires i + 3 <= a <= d && d + 4 < |s|
    requires IsUpperTr(s[i + 1]) && AuthorShape(s[i + 1..a], rules) && DigitsAt(s, d, 4, rules)
    requires s[d + 4] == ')'
    ensures InTextClose(s, i, a, d, rules, true) == Some(Found(i, d + 5, [s[i + 1..a], s[d..d + 4], ""]))
    ensures InTextClose(s, i, a, d, rules, false) == Some(Found(i, d + 5, []))
  {
  }

  /** What a match of the capturing in-text pattern shows about itself. */
  lemma CaptureShape(s: string, f: Found, rules: CharRules)
    requires f.start <= |s| && MatchAt(InTextCapture, s, rules, f.start) == Some(f)
    ensures GroupsShaped(f.groups, rules) && f.end <= |s| && s[f.start] == '(' && s[f.end - 1] == ')'
  {
    var i: nat := f.start;
    CaptureAt(s, i, f, rules);
  }

  /** The same, for the match found at a given position. */
  lemma CaptureAt(s: string, i: nat, f: Found, rules: CharRules)
    requires i <= |s| && MatchInText(s, i, rules, true) == Some(f)
    ensures f.start == i < f.end <= |s| && s[i] == '(' && s[f.end - 1] == ')'
    ensures GroupsShaped(f.groups, rules)
  {
  }

  /** The match at each position: `ms[j]` is the one that starts at `j`. */
  predicate ValidTable(ms: seq<Option<Found>>) {
    forall j :: 0 <= j < |ms| && ms[j].Some? ==> ms[j].value.start == j < ms[j].value.end <= |ms|
  }

  function MatchTable(pat: Pattern, s: string, rules: CharRules): (ms: seq<Option<Found>>)
    ensures |ms| == |s| && ValidTable(ms)
    ensures forall j :: 0 <= j < |s| ==> ms[j] == MatchAt(pat, s, rules, j)
  {
    seq(|s|, j requires 0 <= j < |s| => MatchAt(pat, s, rules, j))
  }

  /** `re.findall`'s scan from position `i`: try each position in turn, and resume after each match. */
  function Scan(ms: seq<Option<Found>>, i: nat): (r: seq<Found>)
    requires ValidTable(ms) && i <= |ms|
    ensures forall k :: 0 <= k < |r| ==> i <= r[k].start < r[k].end <= |ms|
    ensures forall k :: 0 <= k < |r| - 1 ==> r[k].end <= r[k + 1].start
    decreases |ms| - i
  {
    if i == |ms| then []
    else match ms[i]
      case Some(m) => [m] + Scan(ms, m.end)
      case None => Scan(ms, i + 1)
  }

  /** `re.findall(pattern, s)`: the non-overlapping matches, left to right. */
  function FindAll(pat: Pattern, s: string, rules: CharRules): (r: seq<Found>)
    ensures forall k :: 0 <= k < |r| ==> r[k].start < r[k].end <= |s|
    ensures forall k :: 0 <= k < |r| - 1 ==> r[k].end <= r[k + 1].start
  {
    Scan(MatchTable(pat, s, rules), 0)
  }

  /** The text of each match, in order. */
  function MatchedText(s: string, ms: seq<Found>): (r: seq<string>)
    requires forall k :: 0 <= k < |ms| ==> ms[k].start <= ms[k].end <= |s|
    ensures |r| == |ms| && forall k :: 0 <= k < |r| ==> r[k] == s[ms[k].start..ms[k].end]
  {
    if ms == [] then [] else [s[ms[0].start..ms[0].end]] + MatchedText(s, ms[1..])
  }

  /** Every reported match is the match at its start. */
  lemma {:induction false} ScanSound(ms: seq<Option<Found>>, i: nat, k: nat)
    requires ValidTable(ms) && i <= |ms| && k < |Scan(ms, i)|
    ensures var f := Scan(ms, i)[k]; ms[f.start] == Some(f)
    decreases |ms| - i
  {
    var r := Scan(ms, i);
    if ms[i].Some? {
      var m := ms[i].value;
      assert r == [m] + Scan(ms, m.end);
      if k > 0 {
        ScanSound(ms, m.end, k - 1);
        assert r[k] == Scan(ms, m.end)[k - 1];
      }
    } else {
      ScanSound(ms, i + 1, k);
    }
  }

  /** Positions without a match are passed over. */
  lemma {:induction false} ScanSkip(ms: seq<Option<Found>>, i: nat, j: nat)
    requires ValidTable(ms) && i <= j <= |ms|
    requires forall q :: i <= q < j ==> ms[q].None?
    ensures Scan(ms, i) == Scan(ms, j)
    decreases j - i
  {
    if i < j {
      ScanSkip(ms, i + 1, j);
    }
  }

  predicate Covers(r: seq<Found>, q: nat) {
    exists k :: 0 <= k < |r| && r[k].start <= q < r[k].end
  }

  /**
    Nothing is missed: a position where there is a match is either the
    start of a reported match or lies inside one.
  */
  lemma {:induction false} ScanComplete(ms: seq<Option<Found>>, i: nat, q: nat)
    requires ValidTable(ms) && i <= q < |ms| && ms[q].Some?
    ensures Covers(Scan(ms, i), q)
    decreases |ms| - i
  {
    var r := Scan(ms, i);
    if ms[i].Some? {
      var m := ms[i].value;
      assert r == [m] + Scan(ms, m.end);
      if q >= m.end {
        ScanComplete(ms, m.end, q);
        var rest := Scan(ms, m.end);
        var k :| 0 <= k < |rest| && rest[k].start <= q < rest[k].end;
        assert r[k + 1] == rest[k];
      } else {
        assert r[0] == m;
      }
    } else {
      ScanComplete(ms, i + 1, q);
    }
  }

  /** Each match `re.findall` reports is the pattern's match at its start. */
  lemma FindAllSound(pat: Pattern, s: string, rules: CharRules, k: nat)
    requires k < |FindAll(pat, s, rules)|
    ensures var f := FindAll(pat, s, rules)[k]; MatchAt(pat, s, rules, f.start) == Some(f)
  {
    ScanSound(MatchTable(pat, s, rules), 0, k);
  }

  /** Each position where the pattern matches lies in a match that `re.findall` reports. */
  lemma FindAllComplete(pat: Pattern, s: string, rules: CharRules, q: nat)
    requires q < |s| && MatchAt(pat, s, rules, q).Some?
    ensures Covers(FindAll(pat, s, rules), q)
  {
    ScanComplete(MatchTable(pat, s, rules), 0, q);
  }

  /** The scan finds nothing exactly when the pattern matches nowhere. */
  lemma FindAllEmpty(pat: Pattern, s: string, rules: CharRules)
    ensures FindAll(pat, s, rules) == [] <==>
      forall q :: 0 <= q < |s| ==> MatchAt(pat, s, rules, q).None?
  {
    if FindAll(pat, s, rules) == [] {
      forall q | 0 <= q < |s| ensures MatchAt(pat, s, rules, q).None? {
        if MatchAt(pat, s, rules, q).Some? {
          FindAllComplete(pat, s, rules, q);
        }
      }
    } else {
      FindAllSound(pat, s, rules, 0);
    }
  }
}
