/**
  How the profiler's in-text pattern and the checker's capturing pattern
  treat the two APA forms of an in-text citation, `(Author, Year)` and
  `(Author, Year, s. Page)`: first for any text whose parts the patterns
  find in place, then for any author that is one name, or two joined by
  `ve`, `and` or `&`, and any year and page.
*/
module CitationExamples {
  import opened Wrappers
  import opened Chars
  import opened Strings
  import opened Regex
  import opened StyleProfile
  import opened CitationChecker

  // ---------------------------------------------------------------------
  // Any text, any character rules: where the author group, the year and
  // the optional page group are found, what the two patterns report.
  // ---------------------------------------------------------------------

  /** With a page group before `)`, the capturing pattern takes the citation up to the parenthesis at `c`. */
  lemma PagedCaptured(s: string, i: nat, a: nat, d: nat, b: nat, c: nat, rules: CharRules)
    requires i < |s| && s[i] == '('
    requires AuthorEnd(s, i + 1, rules) == Some(a) && YearStart(s, a, rules) == Some(d)
    requires PagesAt(s, d + 4, rules) == Some((b, c)) && c < |s| && s[c] == ')'
    ensures MatchInText(s, i, rules, true) == Some(Found(i, c + 1, [s[i + 1..a], s[d..d + 4], s[b..c]]))
  {
    InTextParts(s, i, rules, true, a, d);
    InTextPaged(s, i, a, d, b, c, rules);
  }

  /** Without the page group, a comma after the year leaves the profile's pattern unmatched. */
  lemma PagedRejected(s: string, i: nat, a: nat, d: nat, rules: CharRules)
    requires i < |s| && s[i] == '('
    requires AuthorEnd(s, i + 1, rules) == Some(a) && YearStart(s, a, rules) == Some(d)
    requires d + 4 < |s| && s[d + 4] == ','
    ensures MatchInText(s, i, rules, false).None?
  {
    InTextParts(s, i, rules, false, a, d);
  }

  /** With `)` right after the year, both patterns match up to it; only the capturing one has groups. */
  lemma PlainCaptured(s: string, i: nat, a: nat, d: nat, rules: CharRules)
    requires i < |s| && s[i] == '('
    requires AuthorEnd(s, i + 1, rules) == Some(a) && YearStart(s, a, rules) == Some(d)
    requires d + 4 < |s| && s[d + 4] == ')'
    ensures MatchInText(s, i, rules, true) == Some(Found(i, d + 5, [s[i + 1..a], s[d..d + 4], ""]))
    ensures MatchInText(s, i, rules, false) == Some(Found(i, d + 5, []))
  {
    InTextParts(s, i, rules, true, a, d);
    InTextParts(s, i, rules, false, a, d);
    InTextPlain(s, i, a, d, rules);
  }

  /** A match that spans the whole text is the only one `re.findall` reports. */
  lemma WholeMatch(pat: Pattern, s: string, f: Found, rules: CharRules)
    requires s != [] && MatchAt(pat, s, rules, 0) == Some(f) && f.end == |s|
    ensures FindAll(pat, s, rules) == [f]
  {
    var ms := MatchTable(pat, s, rules);
    assert ms[0] == Some(f);
    assert Scan(ms, |s|) == [];
  }

  /** Where the only `(` fails the profile's pattern, `re.findall` finds nothing. */
  lemma NoInTextMatch(s: string, rules: CharRules)
    requires s != [] && MatchInText(s, 0, rules, false).None?
    requires forall q :: 1 <= q < |s| ==> s[q] != '('
    ensures FindAll(InText, s, rules) == []
  {
    forall q | 0 <= q < |s| ensures MatchAt(InText, s, rules, q).None? {
    }
    FindAllEmpty(InText, s, rules);
  }

  /** One capturing match gives one (author, year) pair. */
  lemma ExtractOne(s: string, f: Found, rules: CharRules)
    requires FindAll(InTextCapture, s, rules) == [f]
    ensures |f.groups| == 3 && ExtractInTextCitations(s, rules) == [(f.groups[0], f.groups[1])]
  {
    var ms := FindAll(InTextCapture, s, rules);
    assert ms[0] == f;
    var pairs := ExtractInTextCitations(s, rules);
    assert |pairs| == 1 && pairs[0] == (f.groups[0], f.groups[1]);
  }

  /** Over a single text, the profile's total is that text's number of matches. */
  lemma SingleTotal(pat: Pattern, s: string, rules: CharRules)
    ensures PatternTotal(pat, [s], rules) == |FindAll(pat, s, rules)|
  {
    assert [s][..0] == [];
  }

  lemma PagedFound(s: string, a: nat, d: nat, b: nat, c: nat, rules: CharRules)
    requires 0 < |s| && s[0] == '('
    requires AuthorEnd(s, 1, rules) == Some(a) && YearStart(s, a, rules) == Some(d)
    requires PagesAt(s, d + 4, rules) == Some((b, c)) && c + 1 == |s| && s[c] == ')'
    ensures FindAll(InTextCapture, s, rules) == [Found(0, c + 1, [s[1..a], s[d..d + 4], s[b..c]])]
  {
    PagedCaptured(s, 0, a, d, b, c, rules);
    WholeMatch(InTextCapture, s, Found(0, c + 1, [s[1..a], s[d..d + 4], s[b..c]]), rules);
  }

  lemma PagedNotFound(s: string, a: nat, d: nat, rules: CharRules)
    requires 0 < |s| && s[0] == '(' && forall q :: 1 <= q < |s| ==> s[q] != '('
    requires AuthorEnd(s, 1, rules) == Some(a) && YearStart(s, a, rules) == Some(d)
    requires d + 4 < |s| && s[d + 4] == ','
    ensures FindAll(InText, s, rules) == []
  {
    PagedRejected(s, 0, a, d, rules);
    NoInTextMatch(s, rules);
  }

  /**
    A text that is one paged citation: the checker extracts its author and
    year, while the profile counts no in-text citation in it.
  */
  lemma PagedCounted(s: string, a: nat, d: nat, b: nat, c: nat, rules: CharRules)
    requires 0 < |s| && s[0] == '(' && forall q :: 1 <= q < |s| ==> s[q] != '('
    requires AuthorEnd(s, 1, rules) == Some(a) && YearStart(s, a, rules) == Some(d)
    requires d + 4 < |s| && s[d + 4] == ','
    requires PagesAt(s, d + 4, rules) == Some((b, c)) && c + 1 == |s| && s[c] == ')'
    ensures ExtractInTextCitations(s, rules) == [(s[1..a], s[d..d + 4])]
    ensures PatternTotal(InText, [s], rules) == 0
  {
    PagedFound(s, a, d, b, c, rules);
    ExtractOne(s, Found(0, c + 1, [s[1..a], s[d..d + 4], s[b..c]]), rules);
    PagedNotFound(s, a, d, rules);
    SingleTotal(InText, s, rules);
  }

  lemma PlainFound(s: string, a: nat, d: nat, rules: CharRules)
    requires 0 < |s| && s[0] == '('
    requires AuthorEnd(s, 1, rules) == Some(a) && YearStart(s, a, rules) == Some(d)
    requires d + 5 == |s| && s[d + 4] == ')'
    ensures FindAll(InTextCapture, s, rules) == [Found(0, d + 5, [s[1..a], s[d..d + 4], ""])]
    ensures FindAll(InText, s, rules) == [Found(0, d + 5, [])]
  {
    PlainCaptured(s, 0, a, d, rules);
    WholeMatch(InTextCapture, s, Found(0, d + 5, [s[1..a], s[d..d + 4], ""]), rules);
    WholeMatch(InText, s, Found(0, d + 5, []), rules);
  }

  /** A text that is one plain citation: extracted as its author and year, and counted once. */
  lemma PlainCounted(s: string, a: nat, d: nat, rules: CharRules)
    requires 0 < |s| && s[0] == '('
    requires AuthorEnd(s, 1, rules) == Some(a) && YearStart(s, a, rules) == Some(d)
    requires d + 5 == |s| && s[d + 4] == ')'
    ensures ExtractInTextCitations(s, rules) == [(s[1..a], s[d..d + 4])]
    ensures PatternTotal(InText, [s], rules) == 1
  {
    PlainFound(s, a, d, rules);
    ExtractOne(s, Found(0, d + 5, [s[1..a], s[d..d + 4], ""]), rules);
    SingleTotal(InText, s, rules);
  }

  // ---------------------------------------------------------------------
  // The two forms written out for an author of the pattern's shape (one
  // name, or two joined by `ve`, `and` or `&`), under the Basic rules.
  // ---------------------------------------------------------------------

  predicate AllDigits(d: string) {
    forall k :: 0 <= k < |d| ==> BasicDigit(d[k])
  }

  /** `(Author, Year)` */
  function PlainCitation(author: string, year: string): string {
    "(" + author + ", " + year + ")"
  }

  /** `(Author, Year, s. Page)` */
  function PagedCitation(author: string, year: string, page: string): string {
    "(" + author + ", " + year + ", s. " + page + ")"
  }

  /**
    Where each part of a plain citation opening at `o` sits: the author
    ends at `a`, the year starts at `d`, and `)` follows it.
  */
  predicate PlainShape(s: string, o: nat, author: string, year: string) {
    var a := o + |author| + 1;
    var d := a + 2;
    d + 5 <= |s| &&
    s[o] == '(' && s[a] == ',' && s[a + 1] == ' ' && s[d + 4] == ')' &&
    s[o + 1..a] == author && s[d..d + 4] == year
  }

  /**
    Where each part of a paged citation opening at `o` sits: the year
    starts at `d`, the page at `b`, and the closing parenthesis is at `c`.
  */
  predicate PagedShape(s: string, o: nat, author: string, year: string, page: string) {
    var a := o + |author| + 1;
    var d := a + 2;
    var b := d + 9;
    var c := b + |page|;
    c < |s| &&
    s[o] == '(' && s[a] == ',' && s[a + 1] == ' ' && s[d + 4] == ',' && s[d + 5] == ' ' &&
    s[d + 6] == 's' && s[d + 7] == '.' && s[d + 8] == ' ' && s[c] == ')' &&
    s[o + 1..a] == author && s[d..d + 4] == year && s[b..c] == page
  }

  /** What a text shows at `o + i` and over `o + i..o + j` when `w` is written at `o`. */
  lemma WrittenAt(s: string, o: nat, w: string, i: nat, j: nat)
    requires o + |w| <= |s| && s[o..o + |w|] == w && i <= j <= |w|
    ensures s[o + i..o + j] == w[i..j]
    ensures i < |w| ==> s[o + i] == w[i]
  {
    forall k | 0 <= k < j - i ensures s[o + i..o + j][k] == w[i..j][k] {
      assert s[o + i + k] == s[o..o + |w|][i + k];
    }
    if i < |w| {
      assert s[o + i] == s[o..o + |w|][i];
    }
  }

  /** A plain citation written at `o` has the plain shape there. */
  lemma PlainLayout(s: string, o: nat, author: string, year: string)
    requires |year| == 4 && o + |PlainCitation(author, year)| <= |s|
    requires s[o..o + |PlainCitation(author, year)|] == PlainCitation(author, year)
    ensures PlainShape(s, o, author, year)
  {
    var w := PlainCitation(author, year);
    var n := |author|;
    assert w == "(" + author + ", " + year + ")";
    assert w[1..n + 1] == author;
    assert w[n + 3..n + 7] == year;
    WrittenAt(s, o, w, 0, 0);
    WrittenAt(s, o, w, n + 1, n + 1);
    WrittenAt(s, o, w, n + 2, n + 2);
    WrittenAt(s, o, w, n + 7, n + 7);
    WrittenAt(s, o, w, 1, n + 1);
    WrittenAt(s, o, w, n + 3, n + 7);
  }

  /** Where the parts of a paged citation sit in its own text. */
  lemma PagedPieces(author: string, year: string, page: string)
    requires |year| == 4
    ensures var w := PagedCitation(author, year, page);
      var n := |author|;
      |w| == n + 13 + |page| &&
      w[0] == '(' && w[n + 1] == ',' && w[n + 2] == ' ' && w[n + 7] == ',' && w[n + 8] == ' ' &&
      w[n + 9] == 's' && w[n + 10] == '.' && w[n + 11] == ' ' && w[n + 12 + |page|] == ')' &&
      w[1..n + 1] == author && w[n + 3..n + 7] == year && w[n + 12..n + 12 + |page|] == page
  {
    var w := PagedCitation(author, year, page);
    assert w == "(" + author + ", " + year + ", s. " + page + ")";
  }

  /** The punctuation of a paged citation written at `o`. */
  lemma PagedMarks(s: string, o: nat, author: string, year: string, page: string)
    requires |year| == 4 && o + |PagedCitation(author, year, page)| <= |s|
    requires s[o..o + |PagedCitation(author, year, page)|] == PagedCitation(author, year, page)
    ensures var a := o + |author| + 1;
      var d := a + 2;
      var c := d + 9 + |page|;
      c < |s| &&
      s[o] == '(' && s[a] == ',' && s[a + 1] == ' ' && s[d + 4] == ',' && s[d + 5] == ' ' &&
      s[d + 6] == 's' && s[d + 7] == '.' && s[d + 8] == ' ' && s[c] == ')'
  {
    var w := PagedCitation(author, year, page);
    var n := |author|;
    PagedPieces(author, year, page);
    WrittenAt(s, o, w, 0, 0);
    WrittenAt(s, o, w, n + 1, n + 1);
    WrittenAt(s, o, w, n + 2, n + 2);
    WrittenAt(s, o, w, n + 7, n + 7);
    WrittenAt(s, o, w, n + 8, n + 8);
    WrittenAt(s, o, w, n + 9, n + 9);
    WrittenAt(s, o, w, n + 10, n + 10);
    WrittenAt(s, o, w, n + 11, n + 11);
    WrittenAt(s, o, w, n + 12 + |page|, n + 12 + |page|);
  }

  /** The author, year and page of a paged citation written at `o`. */
  lemma PagedSlices(s: string, o: nat, author: string, year: string, page: string)
    requires |year| == 4 && o + |PagedCitation(author, year, page)| <= |s|
    requires s[o..o + |PagedCitation(author, year, page)|] == PagedCitation(author, year, page)
    ensures var a := o + |author| + 1;
      var d := a + 2;
      var b := d + 9;
      s[o + 1..a] == author && s[d..d + 4] == year && s[b..b + |page|] == page
  {
    var w := PagedCitation(author, year, page);
    var n := |author|;
    PagedPieces(author, year, page);
    WrittenAt(s, o, w, 1, n + 1);
    WrittenAt(s, o, w, n + 3, n + 7);
    WrittenAt(s, o, w, n + 12, n + 12 + |page|);
  }

  /** A paged citation written at `o` has the paged shape there. */
  lemma PagedLayout(s: string, o: nat, author: string, year: string, page: string)
    requires |year| == 4 && o + |PagedCitation(author, year, page)| <= |s|
    requires s[o..o + |PagedCitation(author, year, page)|] == PagedCitation(author, year, page)
    ensures PagedShape(s, o, author, year, page)
  {
    PagedMarks(s, o, author, year, page);
    PagedSlices(s, o, author, year, page);
  }

  /** A name at `i`, followed by a character that is not a lower-case letter, ends at `e`. */
  lemma NameAt(s: string, i: nat, n: string, e: nat)
    requires IsName(n) && e == i + |n| && e < |s|
    requires s[i..e] == n && !IsLowerTr(s[e])
    ensures NameEnd(s, i) == Some(e)
  {
    assert s[i] == n[0];
    forall k | i + 1 <= k < e ensures IsLowerTr(s[k]) {
      assert s[k] == n[k - i];
    }
    RunEndIs(s, i + 1, IsLowerTr, true, e);
  }

  /** A run of blanks at `i`, followed by a character that is not a blank, ends at `e`. */
  lemma BlanksAt(s: string, i: nat, b: string, e: nat)
    requires IsBlanks(b, Basic) && e == i + |b| && e < |s|
    requires s[i..e] == b && !BasicSpace(s[e])
    ensures RunEnd(s, i, BasicSpace, true) == e
  {
    forall k | i <= k < e ensures BasicSpace(s[k]) {
      assert s[k] == b[k - i];
    }
    RunEndIs(s, i, BasicSpace, true, e);
  }

  /** A slice that is a concatenation splits where its first part ends. */
  lemma SliceSplit(s: string, i: nat, a: nat, x: string, y: string)
    requires i <= a <= |s| && s[i..a] == x + y
    ensures i + |x| <= a && s[i..i + |x|] == x && s[i + |x|..a] == y
  {
    assert s[i..i + |x|] == s[i..a][..|x|];
    assert s[i + |x|..a] == s[i..a][|x|..];
  }

  /** The second author `\s+(?:ve|and|&)\s+Name` at `p`, followed by the comma at `a`. */
  lemma CoAuthorAt(s: string, p: nat, r: string, a: nat)
    requires CoAuthorShape(r, Basic) && a == p + |r| && a < |s|
    requires s[p..a] == r && s[a] == ','
    ensures CoAuthorEnd(s, p, Basic) == Some(a)
  {
    var b1, c, b2, n :| r == b1 + c + b2 + n &&
      IsBlanks(b1, Basic) && IsConjunction(c) && IsBlanks(b2, Basic) && IsName(n);
    CoAuthorPartsAt(s, p, b1, c, b2, n, a);
  }

  lemma CoAuthorPartsAt(s: string, p: nat, b1: string, c: string, b2: string, n: string, a: nat)
    requires IsBlanks(b1, Basic) && IsConjunction(c) && IsBlanks(b2, Basic) && IsName(n)
    requires a == p + |b1 + c + b2 + n| && a < |s|
    requires s[p..a] == b1 + c + b2 + n && s[a] == ','
    ensures CoAuthorEnd(s, p, Basic) == Some(a)
  {
    var p1 := p + |b1|;
    var p2 := p1 + |c|;
    var p3 := p2 + |b2|;
    SliceSplit(s, p, a, b1 + c + b2, n);
    SliceSplit(s, p, p3, b1 + c, b2);
    SliceSplit(s, p, p2, b1, c);
    ConjunctionAt(s, p1, c, p2);
    BlanksAt(s, p, b1, p1);
    assert s[p3] == n[0];
    BlanksAt(s, p2, b2, p3);
    NameAt(s, p3, n, a);
  }

  /** A conjunction at `i` ends at `e`; its first character is not a blank. */
  lemma ConjunctionAt(s: string, i: nat, c: string, e: nat)
    requires IsConjunction(c) && e == i + |c| <= |s| && s[i..e] == c
    ensures ConjunctionEnd(s, i) == Some(e) && !BasicSpace(s[i])
  {
    assert s[i] == c[0];
    if c != "&" {
      assert s[i + 1] == c[1];
    }
    if c == "and" {
      assert s[i + 2] == c[2];
    }
  }

  /** `author` is written at `i` and followed by a comma at `a`. */
  predicate AuthorWritten(s: string, i: nat, author: string, a: nat) {
    a == i + |author| && a < |s| && s[i..a] == author && s[a] == ','
  }

  /** The author group at `i`, of the pattern's shape and followed by a comma, ends at that comma. */
  lemma AuthorAt(s: string, i: nat, author: string, a: nat)
    requires AuthorShape(author, Basic) && AuthorWritten(s, i, author, a)
    ensures AuthorEnd(s, i, Basic) == Some(a)
  {
    if IsName(author) {
      NameAt(s, i, author, a);
      RunEndIs(s, a, BasicSpace, true, a);
    } else {
      var n, r :| author == n + r && IsName(n) && CoAuthorShape(r, Basic);
      TwoAuthorsAt(s, i, n, r, a);
    }
  }

  lemma TwoAuthorsAt(s: string, i: nat, n: string, r: string, a: nat)
    requires IsName(n) && CoAuthorShape(r, Basic) && a == i + |n + r| && a < |s|
    requires s[i..a] == n + r && s[a] == ','
    ensures AuthorEnd(s, i, Basic) == Some(a)
  {
    var p := i + |n|;
    SliceSplit(s, i, a, n, r);
    CoAuthorAt(s, p, r, a);
    assert !IsLowerTr(s[p]) by {
      var b1, c, b2, n2 :| r == b1 + c + b2 + n2 &&
        IsBlanks(b1, Basic) && IsConjunction(c) && IsBlanks(b2, Basic) && IsName(n2);
      assert s[p] == r[0] == b1[0];
    }
    NameAt(s, i, n, p);
  }

  lemma NameNoParen(n: string)
    requires IsName(n)
    ensures '(' !in n
  {
  }

  lemma BlanksNoParen(b: string)
    requires IsBlanks(b, Basic)
    ensures '(' !in b
  {
  }

  /** No character of an author group opens a parenthesis. */
  lemma AuthorNoParen(author: string)
    requires AuthorShape(author, Basic)
    ensures '(' !in author
  {
    if IsName(author) {
      NameNoParen(author);
    } else {
      var n, r :| author == n + r && IsName(n) && CoAuthorShape(r, Basic);
      var b1, c, b2, n2 :| r == b1 + c + b2 + n2 &&
        IsBlanks(b1, Basic) && IsConjunction(c) && IsBlanks(b2, Basic) && IsName(n2);
      NameNoParen(n);
      BlanksNoParen(b1);
      BlanksNoParen(b2);
      NameNoParen(n2);
    }
  }

  /** The year group starts at `d`, after the comma at `a` and its blank. */
  lemma YearAt(s: string, a: nat, d: nat, year: string)
    requires |year| == 4 && AllDigits(year) && d == a + 2 && d + 4 <= |s|
    requires s[a] == ',' && s[a + 1] == ' ' && s[d..d + 4] == year
    ensures YearStart(s, a, Basic) == Some(d)
  {
    assert s[d] == year[0];
    RunEndIs(s, a + 1, BasicSpace, true, d);
    forall k | d <= k < d + 4 ensures BasicDigit(s[k]) {
      assert s[k] == year[k - d];
    }
  }

  /** The page group of `, s. Page)` after a year at `d`: its digits from `b` up to the parenthesis at `c`. */
  lemma PagesOf(s: string, d: nat, b: nat, c: nat, page: string)
    requires page != [] && AllDigits(page) && b == d + 9 && c == b + |page| && c < |s|
    requires s[d + 4] == ',' && s[d + 5] == ' ' && s[d + 6] == 's' && s[d + 7] == '.' && s[d + 8] == ' '
    requires s[b..c] == page && s[c] == ')'
    ensures PagesAt(s, d + 4, Basic) == Some((b, c))
  {
    RunEndIs(s, d + 5, BasicSpace, true, d + 6);
    assert s[d + 6..d + 8] == "s.";
    assert s[b] == page[0];
    RunEndIs(s, d + 8, BasicSpace, true, b);
    forall k | b <= k < c ensures BasicDigit(s[k]) {
      assert s[k] == page[k - b];
    }
    RunEndIs(s, b, BasicDigit, true, c);
  }

  /** A paged citation opens a parenthesis only at its start. */
  lemma PagedOpensOnce(author: string, year: string, page: string)
    requires AuthorShape(author, Basic) && |year| == 4 && AllDigits(year) && AllDigits(page)
    ensures var s := PagedCitation(author, year, page);
      forall q :: 1 <= q < |s| ==> s[q] != '('
  {
    var s := PagedCitation(author, year, page);
    var n := |author|;
    assert s[0..|s|] == s;
    PagedLayout(s, 0, author, year, page);
    AuthorNoParen(author);
    forall q | 1 <= q < |s| ensures s[q] != '(' {
      if q < n + 1 {
        assert s[q] == author[q - 1];
      } else if n + 3 <= q < n + 7 {
        assert s[q] == year[q - n - 3];
      } else if n + 12 <= q < |s| - 1 {
        assert s[q] == page[q - n - 12];
      }
    }
  }

  /** The comma, blank, `s.`, page and parenthesis after an author group that ends at `a`, at the positions `d`, `b`, `c`. */
  predicate PagedTail(s: string, a: nat, d: nat, b: nat, c: nat, year: string, page: string) {
    d == a + 2 && b == d + 9 && c == b + |page| && c < |s| &&
    s[a] == ',' && s[a + 1] == ' ' && s[c] == ')' &&
    s[d + 4] == ',' && s[d + 5] == ' ' && s[d + 6] == 's' && s[d + 7] == '.' && s[d + 8] == ' ' &&
    s[d..d + 4] == year && s[b..c] == page
  }

  /** The characters and slices of a text with a paged citation at `o`, at the positions `a`, `d`, `b`, `c`. */
  lemma PagedPlaces(s: string, o: nat, author: string, year: string, page: string, a: nat, d: nat, b: nat, c: nat)
    requires PagedShape(s, o, author, year, page)
    requires a == o + |author| + 1 && d == a + 2 && b == d + 9 && c == b + |page|
    ensures c < |s| && s[o] == '(' && s[a] == ',' && s[a + 1] == ' ' && s[c] == ')'
    ensures s[d + 4] == ',' && s[d + 5] == ' ' && s[d + 6] == 's' && s[d + 7] == '.' && s[d + 8] == ' '
    ensures s[o + 1..a] == author && s[d..d + 4] == year && s[b..c] == page
    ensures AuthorWritten(s, o + 1, author, a) && PagedTail(s, a, d, b, c, year, page)
  {
  }

  /** Where the pattern finds the year and the page of a paged citation whose author group ends at `a`. */
  lemma YearAndPages(s: string, a: nat, d: nat, b: nat, c: nat, year: string, page: string)
    requires |year| == 4 && AllDigits(year) && page != [] && AllDigits(page)
    requires PagedTail(s, a, d, b, c, year, page)
    ensures YearStart(s, a, Basic) == Some(d) && PagesAt(s, d + 4, Basic) == Some((b, c))
  {
    YearAt(s, a, d, year);
    PagesOf(s, d, b, c, page);
  }

  /**
    A paged citation anywhere in a text: the checker's pattern matches it
    whole, with its author, year and page as groups; the profile's
    pattern does not match there.
  */
  lemma PagedAt(s: string, o: nat, author: string, year: string, page: string, e: nat)
    requires AuthorShape(author, Basic) && |year| == 4 && AllDigits(year) && page != [] && AllDigits(page)
    requires PagedShape(s, o, author, year, page) && e == o + |author| + 13 + |page|
    ensures MatchInText(s, o, Basic, true) == Some(Found(o, e, [author, year, page]))
    ensures MatchInText(s, o, Basic, false).None?
  {
    var a: nat := o + |author| + 1;
    var d: nat := a + 2;
    var b: nat := d + 9;
    var c: nat := b + |page|;
    PagedPlaces(s, o, author, year, page, a, d, b, c);
    AuthorAt(s, o + 1, author, a);
    // The author group ends at `a`.
    assert AuthorEnd(s, o + 1, Basic) == Some(a);
    YearAndPages(s, a, d, b, c, year, page);
    PagedGroups(s, o, a, d, b, c, e, author, year, page);
    PagedRejected(s, o, a, d, Basic);
  }

  /** The paged match at `o` reports the given author, year and page as its groups. */
  lemma PagedGroups(s: string, o: nat, a: nat, d: nat, b: nat, c: nat, e: nat, author: string, year: string, page: string)
    requires o < |s| && s[o] == '(' && e == c + 1
    requires AuthorEnd(s, o + 1, Basic) == Some(a) && YearStart(s, a, Basic) == Some(d)
    requires PagesAt(s, d + 4, Basic) == Some((b, c)) && c < |s| && s[c] == ')'
    requires s[o + 1..a] == author && s[d..d + 4] == year && s[b..c] == page
    ensures MatchInText(s, o, Basic, true) == Some(Found(o, e, [author, year, page]))
  {
    PagedCaptured(s, o, a, d, b, c, Basic);
  }

  /** A text laid out as a paged citation: extracted as its author and year, not counted. */
  lemma PagedTextCounted(s: string, author: string, year: string, page: string, a: nat, d: nat, b: nat, c: nat)
    requires AuthorShape(author, Basic) && |year| == 4 && AllDigits(year) && page != [] && AllDigits(page)
    requires PagedShape(s, 0, author, year, page) && forall q :: 1 <= q < |s| ==> s[q] != '('
    requires a == |author| + 1 && d == a + 2 && b == d + 9 && c == b + |page| && c + 1 == |s|
    ensures ExtractInTextCitations(s, Basic) == [(author, year)]
    ensures PatternTotal(InText, [s], Basic) == 0
  {
    PagedPlaces(s, 0, author, year, page, a, d, b, c);
    AuthorAt(s, 1, author, a);
    // The author group ends at `a`.
    assert AuthorEnd(s, 1, Basic) == Some(a);
    YearAndPages(s, a, d, b, c, year, page);
    PagedCounted(s, a, d, b, c, Basic);
  }

  /** The characters and slices of a text with a plain citation at `o`, at the positions `a` and `d`. */
  lemma PlainPlaces(s: string, o: nat, author: string, year: string, a: nat, d: nat)
    requires PlainShape(s, o, author, year)
    requires a == o + |author| + 1 && d == a + 2
    ensures d + 5 <= |s| && s[o] == '(' && s[a] == ',' && s[a + 1] == ' ' && s[d + 4] == ')'
    ensures s[o + 1..a] == author && s[d..d + 4] == year
  {
  }

  /** Where the pattern finds the author and the year of a plain citation at `o`. */
  lemma PlainParts(s: string, o: nat, author: string, year: string, a: nat, d: nat)
    requires AuthorShape(author, Basic) && |year| == 4 && AllDigits(year)
    requires a == o + |author| + 1 && d == a + 2
    requires d + 5 <= |s| && s[a] == ',' && s[a + 1] == ' '
    requires s[o + 1..a] == author && s[d..d + 4] == year
    ensures AuthorEnd(s, o + 1, Basic) == Some(a) && YearStart(s, a, Basic) == Some(d)
  {
    AuthorAt(s, o + 1, author, a);
    YearAt(s, a, d, year);
  }

  /** A plain citation anywhere in a text: both patterns match it whole; the checker's groups are its author and year. */
  lemma PlainAt(s: string, o: nat, author: string, year: string, e: nat)
    requires AuthorShape(author, Basic) && |year| == 4 && AllDigits(year)
    requires PlainShape(s, o, author, year) && e == o + |author| + 8
    ensures MatchInText(s, o, Basic, true) == Some(Found(o, e, [author, year, ""]))
    ensures MatchInText(s, o, Basic, false) == Some(Found(o, e, []))
  {
    var a := o + |author| + 1;
    var d := a + 2;
    PlainPlaces(s, o, author, year, a, d);
    PlainParts(s, o, author, year, a, d);
    PlainCaptured(s, o, a, d, Basic);
  }

  /** A text laid out as a plain citation: extracted as its author and year, and counted once. */
  lemma PlainTextCounted(s: string, author: string, year: string, a: nat, d: nat)
    requires AuthorShape(author, Basic) && |year| == 4 && AllDigits(year)
    requires PlainShape(s, 0, author, year)
    requires a == |author| + 1 && d == a + 2 && d + 5 == |s|
    ensures ExtractInTextCitations(s, Basic) == [(author, year)]
    ensures PatternTotal(InText, [s], Basic) == 1
  {
    PlainPlaces(s, 0, author, year, a, d);
    PlainParts(s, 0, author, year, a, d);
    PlainCounted(s, a, d, Basic);
  }

  /**
    `(Author, Year, s. Page)`: the checker extracts `(Author, Year)`, while
    the profile counts no in-text citation for it.
  */
  lemma PagedCitationCounted(author: string, year: string, page: string)
    requires AuthorShape(author, Basic) && |year| == 4 && AllDigits(year) && page != [] && AllDigits(page)
    ensures var s := PagedCitation(author, year, page);
      ExtractInTextCitations(s, Basic) == [(author, year)] &&
      PatternTotal(InText, [s], Basic) == 0
  {
    var s := PagedCitation(author, year, page);
    assert s[0..|s|] == s;
    PagedLayout(s, 0, author, year, page);
    PagedOpensOnce(author, year, page);
    PagedTextCounted(s, author, year, page,
      |author| + 1, |author| + 3, |author| + 12, |author| + 12 + |page|);
  }

  /** `(Author, Year)`: the checker extracts `(Author, Year)` and the profile counts it once. */
  lemma PlainCitationCounted(author: string, year: string)
    requires AuthorShape(author, Basic) && |year| == 4 && AllDigits(year)
    ensures var s := PlainCitation(author, year);
      ExtractInTextCitations(s, Basic) == [(author, year)] &&
      PatternTotal(InText, [s], Basic) == 1
  {
    var s := PlainCitation(author, year);
    assert s[0..|s|] == s;
    PlainLayout(s, 0, author, year);
    PlainTextCounted(s, author, year, |author| + 1, |author| + 3);
  }

  // ---------------------------------------------------------------------
  // Two citations in one text: a plain one, some words, then a paged one.
  // ---------------------------------------------------------------------

  /** `re.findall` from `i` passes over the positions without a match, reports `f`, and resumes after it. */
  lemma ScanTo(pat: Pattern, s: string, rules: CharRules, i: nat, f: Found)
    requires i <= f.start < |s| && MatchAt(pat, s, rules, f.start) == Some(f)
    requires forall q :: i <= q < f.start ==> MatchAt(pat, s, rules, q).None?
    ensures Scan(MatchTable(pat, s, rules), i) == [f] + Scan(MatchTable(pat, s, rules), f.end)
  {
    ScanSkip(MatchTable(pat, s, rules), i, f.start);
  }

  /** `re.findall` from `i` reports nothing when no later position matches. */
  lemma ScanDone(pat: Pattern, s: string, rules: CharRules, i: nat)
    requires i <= |s| && forall q :: i <= q < |s| ==> MatchAt(pat, s, rules, q).None?
    ensures Scan(MatchTable(pat, s, rules), i) == []
  {
    ScanSkip(MatchTable(pat, s, rules), i, |s|);
  }

  /** A pattern that matches at one position only: `re.findall` reports that match alone. */
  lemma OneMatch(pat: Pattern, s: string, rules: CharRules, f: Found)
    requires f.start < |s| && MatchAt(pat, s, rules, f.start) == Some(f)
    requires forall q :: 0 <= q < |s| && q != f.start ==> MatchAt(pat, s, rules, q).None?
    ensures FindAll(pat, s, rules) == [f]
  {
    ScanTo(pat, s, rules, 0, f);
    ScanDone(pat, s, rules, f.end);
  }

  /** A pattern that matches at two positions only, the second after the first match ends: both are reported, in order. */
  lemma TwoMatches(pat: Pattern, s: string, rules: CharRules, f: Found, g: Found)
    requires f.start < |s| && MatchAt(pat, s, rules, f.start) == Some(f)
    requires f.end <= g.start < |s| && MatchAt(pat, s, rules, g.start) == Some(g)
    requires forall q :: 0 <= q < |s| && q != f.start && q != g.start ==> MatchAt(pat, s, rules, q).None?
    ensures FindAll(pat, s, rules) == [f, g]
  {
    ScanTo(pat, s, rules, 0, f);
    ScanTo(pat, s, rules, f.end, g);
    ScanDone(pat, s, rules, g.end);
  }

  /** Two capturing matches give two (author, year) pairs, in order. */
  lemma ExtractTwo(s: string, f: Found, g: Found, rules: CharRules)
    requires FindAll(InTextCapture, s, rules) == [f, g]
    ensures |f.groups| == 3 && |g.groups| == 3
    ensures ExtractInTextCitations(s, rules) == [(f.groups[0], f.groups[1]), (g.groups[0], g.groups[1])]
  {
    CaptureGroupsPresent(s, rules);
    var ms := FindAll(InTextCapture, s, rules);
    assert ms[0] == f && ms[1] == g;
  }

  /** `et al.` needs a `t` right after its start. */
  lemma EtAlNeedsT(s: string, i: nat, rules: CharRules)
    requires i <= |s| && MatchAt(EtAl, s, rules, i).Some?
    ensures i + 1 < |s| && s[i + 1] == 't'
  {
    assert s[i..i + 2] == "et";
  }

  /** A text without a `t` holds no `et al.` */
  lemma NoEtAl(s: string, rules: CharRules)
    requires 't' !in s
    ensures FindAll(EtAl, s, rules) == []
  {
    forall q | 0 <= q < |s| ensures MatchAt(EtAl, s, rules, q).None? {
      if MatchAt(EtAl, s, rules, q).Some? {
        EtAlNeedsT(s, q, rules);
      }
    }
    FindAllEmpty(EtAl, s, rules);
  }

  /** The `s. Page` of a paged citation whose year starts at `d` is a page reference ending where the page does. */
  lemma PageRefOf(s: string, d: nat, b: nat, c: nat, page: string)
    requires page != [] && AllDigits(page) && b == d + 9 && c == b + |page| && c < |s|
    requires s[d + 6] == 's' && s[d + 7] == '.' && s[d + 8] == ' '
    requires s[b..c] == page && s[c] == ')'
    ensures MatchAt(PageRef, s, Basic, d + 6) == Some(Found(d + 6, c, []))
  {
    assert s[b] == page[0];
    RunEndIs(s, d + 8, BasicSpace, true, b);
    forall k | b <= k < c ensures BasicDigit(s[k]) {
      assert s[k] == page[k - b];
    }
    RunEndIs(s, b, BasicDigit, true, c);
  }

  /** Each character of a plain citation: its `(`, a character of the author, a digit, or one of `, )`. */
  lemma PlainChar(author: string, year: string, q: nat)
    requires |year| == 4 && AllDigits(year) && q < |PlainCitation(author, year)|
    ensures var w := PlainCitation(author, year);
      (q == 0 && w[q] == '(') || w[q] in author || BasicDigit(w[q]) || w[q] in ", )"
  {
    var w := PlainCitation(author, year);
    var n := |author|;
    assert w == "(" + author + ", " + year + ")";
    if 1 <= q <= n {
      assert w[q] == author[q - 1];
    } else if n + 3 <= q < n + 7 {
      assert w[q] == year[q - n - 3];
    }
  }

  /** Each character of a paged citation: its `(`, the `s` of `s.`, a character of the author, a digit, or one of `, .)`. */
  lemma PagedChar(author: string, year: string, page: string, q: nat)
    requires |year| == 4 && AllDigits(year) && AllDigits(page) && q < |PagedCitation(author, year, page)|
    ensures var w := PagedCitation(author, year, page);
      (q == 0 && w[q] == '(') || (q == |author| + 9 && w[q] == 's') ||
      w[q] in author || BasicDigit(w[q]) || w[q] in ", .)"
  {
    var w := PagedCitation(author, year, page);
    var n := |author|;
    assert w == "(" + author + ", " + year + ", s. " + page + ")";
    if 1 <= q <= n {
      assert w[q] == author[q - 1];
    } else if n + 3 <= q < n + 7 {
      assert w[q] == year[q - n - 3];
    } else if n + 12 <= q < |w| - 1 {
      assert w[q] == page[q - n - 12];
    }
  }

  /**
    Each character of a plain citation `x`, words `g` and a paged
    citation `y` written one after the other: one of the two `(`, the `s`
    of `s.`, a character of an author or of the words, a digit, or one of
    `, .)`.
  */
  lemma PairChar(x: string, g: string, y: string, a1: string, y1: string, a2: string, y2: string, p: string, q: nat)
    requires x == PlainCitation(a1, y1) && y == PagedCitation(a2, y2, p)
    requires |y1| == 4 && AllDigits(y1) && |y2| == 4 && AllDigits(y2) && AllDigits(p)
    requires q < |x + g + y|
    ensures var s := x + g + y;
      (q == 0 && s[q] == '(') || (q == |x| + |g| && s[q] == '(') || (q == |x| + |g| + |a2| + 9 && s[q] == 's') ||
      s[q] in a1 || s[q] in g || s[q] in a2 || BasicDigit(s[q]) || s[q] in ", .)"
  {
    var s := x + g + y;
    if q < |x| {
      assert s[q] == x[q];
      PlainChar(a1, y1, q);
    } else if q < |x| + |g| {
      assert s[q] == g[q - |x|];
    } else {
      assert s[q] == y[q - |x| - |g|];
      PagedChar(a2, y2, p, q - |x| - |g|);
    }
  }

  /** The words between the two citations, written out: the characters they may not hold. */
  predicate Between(g: string) {
    '(' !in g && 's' !in g && 't' !in g
  }

  /** Where the text of two citations opens a parenthesis, holds an `s`, and holds no `t`. */
  lemma PairLetters(x: string, g: string, y: string, a1: string, y1: string, a2: string, y2: string, p: string)
    requires x == PlainCitation(a1, y1) && y == PagedCitation(a2, y2, p)
    requires AuthorShape(a1, Basic) && AuthorShape(a2, Basic) && 's' !in a1 + a2 && 't' !in a1 + a2 && Between(g)
    requires |y1| == 4 && AllDigits(y1) && |y2| == 4 && AllDigits(y2) && AllDigits(p)
    ensures var s := x + g + y;
      forall q :: 0 <= q < |s| && q != 0 && q != |x| + |g| ==> s[q] != '('
    ensures var s := x + g + y;
      forall q :: 0 <= q < |s| && q != |x| + |g| + |a2| + 9 ==> s[q] != 's'
    ensures 't' !in x + g + y
  {
    var s := x + g + y;
    AuthorNoParen(a1);
    AuthorNoParen(a2);
    forall q | 0 <= q < |s| ensures s[q] != 't' {
      PairChar(x, g, y, a1, y1, a2, y2, p, q);
    }
    forall q | 0 <= q < |s| && q != 0 && q != |x| + |g| ensures s[q] != '(' {
      PairChar(x, g, y, a1, y1, a2, y2, p, q);
    }
    forall q | 0 <= q < |s| && q != |x| + |g| + |a2| + 9 ensures s[q] != 's' {
      PairChar(x, g, y, a1, y1, a2, y2, p, q);
    }
  }

  /** Where the plain citation and the paged citation sit in the text they are written into. */
  lemma PairShapes(x: string, g: string, y: string, a1: string, y1: string, a2: string, y2: string, p: string)
    requires x == PlainCitation(a1, y1) && y == PagedCitation(a2, y2, p) && |y1| == 4 && |y2| == 4
    ensures PlainShape(x + g + y, 0, a1, y1) && PagedShape(x + g + y, |x| + |g|, a2, y2, p)
  {
    var s := x + g + y;
    assert s[0..|x|] == x;
    assert s[|x| + |g|..|x| + |g| + |y|] == y;
    PlainLayout(s, 0, a1, y1);
    PagedLayout(s, |x| + |g|, a2, y2, p);
  }

  /** The two premises every lemma about the two-citation text shares. */
  predicate PairParts(a1: string, y1: string, a2: string, y2: string, p: string) {
    |y1| == 4 && AllDigits(y1) && |y2| == 4 && AllDigits(y2) && p != [] && AllDigits(p)
  }

  /** The in-text patterns' match at `q` is `MatchInText`'s. */
  lemma InTextMatchAt(s: string, q: nat, rules: CharRules)
    requires q <= |s|
    ensures MatchAt(InTextCapture, s, rules, q) == MatchInText(s, q, rules, true)
    ensures MatchAt(InText, s, rules, q) == MatchInText(s, q, rules, false)
  {
  }

  /** Neither in-text pattern matches where there is no `(`. */
  lemma NoOpenNoMatch(s: string, q: nat, rules: CharRules)
    requires q < |s| && s[q] != '('
    ensures MatchAt(InTextCapture, s, rules, q).None? && MatchAt(InText, s, rules, q).None?
  {
  }

  /** Where the text opens only at 0 and at `o`, the checker's pattern reports the matches there. */
  lemma TwoCaptured(s: string, o: nat, f: Found, g: Found, rules: CharRules)
    requires 0 < |s| && MatchInText(s, 0, rules, true) == Some(f)
    requires f.end <= o < |s| && MatchInText(s, o, rules, true) == Some(g)
    requires forall q :: 0 <= q < |s| && q != 0 && q != o ==> s[q] != '('
    ensures FindAll(InTextCapture, s, rules) == [f, g]
  {
    forall q | 0 <= q < |s| && q != 0 && q != o ensures MatchAt(InTextCapture, s, rules, q).None? {
      NoOpenNoMatch(s, q, rules);
    }
    InTextMatchAt(s, 0, rules);
    InTextMatchAt(s, o, rules);
    TwoMatches(InTextCapture, s, rules, f, g);
  }

  /** Where the text opens only at 0 and at `o`, and the profile's pattern fails at `o`, it reports the match at 0 alone. */
  lemma FirstInText(s: string, o: nat, f: Found, rules: CharRules)
    requires 0 < |s| && MatchInText(s, 0, rules, false) == Some(f)
    requires o < |s| && MatchInText(s, o, rules, false).None?
    requires forall q :: 0 <= q < |s| && q != 0 && q != o ==> s[q] != '('
    ensures FindAll(InText, s, rules) == [f]
  {
    forall q | 0 <= q < |s| && q != 0 ensures MatchAt(InText, s, rules, q).None? {
      if q != o {
        NoOpenNoMatch(s, q, rules);
      } else {
        InTextMatchAt(s, o, rules);
      }
    }
    InTextMatchAt(s, 0, rules);
    OneMatch(InText, s, rules, f);
  }

  /** Both in-text patterns at the plain citation at 0 and at the paged one at `o`. */
  lemma PairMatches(s: string, o: nat, e1: nat, a1: string, y1: string, a2: string, y2: string, p: string)
    requires PairParts(a1, y1, a2, y2, p) && AuthorShape(a1, Basic) && AuthorShape(a2, Basic)
    requires PlainShape(s, 0, a1, y1) && PagedShape(s, o, a2, y2, p)
    requires e1 == 0 + |a1| + 8 && |s| == o + |a2| + 13 + |p|
    ensures MatchInText(s, 0, Basic, true) == Some(Found(0, e1, [a1, y1, ""]))
    ensures MatchInText(s, 0, Basic, false) == Some(Found(0, e1, []))
    ensures MatchInText(s, o, Basic, true) == Some(Found(o, |s|, [a2, y2, p]))
    ensures MatchInText(s, o, Basic, false).None?
  {
    PlainAt(s, 0, a1, y1, e1);
    PagedAt(s, o, a2, y2, p, |s|);
  }

  /** The page-reference pattern does not match where there is no `s`. */
  lemma NoSNoPageRef(s: string, q: nat, rules: CharRules)
    requires q < |s| && s[q] != 's'
    ensures MatchAt(PageRef, s, rules, q).None?
  {
  }

  /** The page-reference pattern matches the `s. Page` of the paged citation at `o` only. */
  lemma PairPageRef(s: string, o: nat, a2: string, y2: string, p: string, d: nat)
    requires PagedShape(s, o, a2, y2, p) && p != [] && AllDigits(p) && d == o + |a2| + 3
    requires forall q :: 0 <= q < |s| && q != o + |a2| + 9 ==> s[q] != 's'
    ensures FindAll(PageRef, s, Basic) == [Found(d + 6, d + 9 + |p|, [])]
  {
    PagedPlaces(s, o, a2, y2, p, d - 2, d, d + 9, d + 9 + |p|);
    PageRefOf(s, d, d + 9, d + 9 + |p|, p);
    forall q | 0 <= q < |s| && q != d + 6 ensures MatchAt(PageRef, s, Basic, q).None? {
      NoSNoPageRef(s, q, Basic);
    }
    OneMatch(PageRef, s, Basic, Found(d + 6, d + 9 + |p|, []));
  }

  /** The facts about the two-citation text that the matches rest on. */
  lemma PairFacts(x: string, g: string, y: string, a1: string, y1: string, a2: string, y2: string, p: string)
    requires x == PlainCitation(a1, y1) && y == PagedCitation(a2, y2, p) && PairParts(a1, y1, a2, y2, p)
    requires AuthorShape(a1, Basic) && AuthorShape(a2, Basic) && 's' !in a1 + a2 && 't' !in a1 + a2 && Between(g)
    ensures var s := x + g + y;
      var o := |x| + |g|;
      PlainShape(s, 0, a1, y1) && PagedShape(s, o, a2, y2, p) &&
      |x| == 0 + |a1| + 8 && |x| <= o && |s| == o + |a2| + 13 + |p| &&
      (forall q :: 0 <= q < |s| && q != 0 && q != o ==> s[q] != '(') &&
      (forall q :: 0 <= q < |s| && q != o + |a2| + 9 ==> s[q] != 's') &&
      't' !in s
  {
    PairShapes(x, g, y, a1, y1, a2, y2, p);
    PairLetters(x, g, y, a1, y1, a2, y2, p);
  }

  /** The profile's three citation counts, by name and in order. */
  lemma CountsNamed(texts: seq<string>, rules: CharRules)
    ensures CitationCounts(texts, rules) == [
      ("in_text", PatternTotal(InText, texts, rules)),
      ("et_al", PatternTotal(EtAl, texts, rules)),
      ("page_ref", PatternTotal(PageRef, texts, rules))]
  {
  }

  /**
    A text holding a plain citation at 0 and a paged one at `o`, with no
    other `(`, no `t`, and no `s` but the one of `s.`: the checker extracts
    both (author, year) pairs, in order, while the profile counts one
    in-text citation, no `et al.` and one page reference.
  */
  lemma PairCounted(s: string, o: nat, e1: nat, a1: string, y1: string, a2: string, y2: string, p: string)
    requires PairParts(a1, y1, a2, y2, p) && AuthorShape(a1, Basic) && AuthorShape(a2, Basic)
    requires PlainShape(s, 0, a1, y1) && PagedShape(s, o, a2, y2, p)
    requires e1 == 0 + |a1| + 8 && e1 <= o && |s| == o + |a2| + 13 + |p|
    requires forall q :: 0 <= q < |s| && q != 0 && q != o ==> s[q] != '('
    requires forall q :: 0 <= q < |s| && q != o + |a2| + 9 ==> s[q] != 's'
    requires 't' !in s
    ensures ExtractInTextCitations(s, Basic) == [(a1, y1), (a2, y2)]
    ensures CitationCounts([s], Basic) == [("in_text", 1), ("et_al", 0), ("page_ref", 1)]
  {
    PairMatches(s, o, e1, a1, y1, a2, y2, p);
    TwoCaptured(s, o, Found(0, e1, [a1, y1, ""]), Found(o, |s|, [a2, y2, p]), Basic);
    ExtractTwo(s, Found(0, e1, [a1, y1, ""]), Found(o, |s|, [a2, y2, p]), Basic);
    FirstInText(s, o, Found(0, e1, []), Basic);
    PairPageRef(s, o, a2, y2, p, o + |a2| + 3);
    NoEtAl(s, Basic);
    SingleTotal(InText, s, Basic);
    SingleTotal(EtAl, s, Basic);
    SingleTotal(PageRef, s, Basic);
    CountsNamed([s], Basic);
  }

  /**
    A plain citation, words without `(`, `s` or `t`, then a paged
    citation, by authors without `s` or `t`: the checker extracts both
    (author, year) pairs, in order, while the profile counts one in-text
    citation, no `et al.` and one page reference.
  */
  lemma PlainThenPaged(x: string, g: string, y: string, a1: string, y1: string, a2: string, y2: string, p: string)
    requires x == PlainCitation(a1, y1) && y == PagedCitation(a2, y2, p) && PairParts(a1, y1, a2, y2, p)
    requires AuthorShape(a1, Basic) && AuthorShape(a2, Basic) && 's' !in a1 + a2 && 't' !in a1 + a2 && Between(g)
    ensures ExtractInTextCitations(x + g + y, Basic) == [(a1, y1), (a2, y2)]
    ensures CitationCounts([x + g + y], Basic) == [("in_text", 1), ("et_al", 0), ("page_ref", 1)]
  {
    PairFacts(x, g, y, a1, y1, a2, y2, p);
    PairCounted(x + g + y, |x| + |g|, |x|, a1, y1, a2, y2, p);
  }

  lemma AydinParts()
    ensures AuthorShape("Aydın", Basic) && AllDigits("2020") && AllDigits("45")
  {
    assert IsName("Aydın");
  }

  lemma AydinTexts()
    ensures PlainCitation("Aydın", "2020") == "(Aydın, 2020)"
    ensures PagedCitation("Aydın", "2020", "45") == "(Aydın, 2020, s. 45)"
  {
  }

  /** "(Aydın, 2020)" is counted by the profile and extracted by the checker. */
  lemma AydinPlain()
    ensures ExtractInTextCitations("(Aydın, 2020)", Basic) == [("Aydın", "2020")]
    ensures PatternTotal(InText, ["(Aydın, 2020)"], Basic) == 1
  {
    AydinParts();
    AydinTexts();
    PlainCitationCounted("Aydın", "2020");
  }

  /** "(Aydın, 2020, s. 45)" is extracted by the checker but not counted by the profile. */
  lemma AydinPaged()
    ensures ExtractInTextCitations("(Aydın, 2020, s. 45)", Basic) == [("Aydın", "2020")]
    ensures PatternTotal(InText, ["(Aydın, 2020, s. 45)"], Basic) == 0
  {
    AydinParts();
    AydinTexts();
    PagedCitationCounted("Aydın", "2020", "45");
  }

  /** The author of `(Aydın ve Demir, 2021, s. 45)`: two names joined by `ve`. */
  lemma AydinDemirShape()
    ensures AuthorShape("Aydın ve Demir", Basic)
  {
    VeDemirShape();
    assert IsName("Aydın");
    assert "Aydın ve Demir" == "Aydın" + " ve Demir";
  }

  lemma VeDemirShape()
    ensures CoAuthorShape(" ve Demir", Basic)
  {
    assert IsName("Demir") && IsBlanks(" ", Basic) && IsConjunction("ve");
    assert " ve Demir" == " " + "ve" + " " + "Demir";
  }

  lemma AydinDemirText()
    ensures PagedCitation("Aydın ve Demir", "2021", "45") == "(Aydın ve Demir, 2021, s. 45)"
  {
  }

  lemma HeadlineJoined()
    ensures "(Aydın, 2020) ve (Aydın ve Demir, 2021, s. 45)" ==
      "(Aydın, 2020)" + " ve " + "(Aydın ve Demir, 2021, s. 45)"
  {
  }

  /** The sentence is a plain citation, ` ve `, then a paged citation. */
  lemma HeadlineParts()
    ensures "(Aydın, 2020) ve (Aydın ve Demir, 2021, s. 45)" ==
      PlainCitation("Aydın", "2020") + " ve " + PagedCitation("Aydın ve Demir", "2021", "45")
  {
    AydinTexts();
    AydinDemirText();
    HeadlineJoined();
  }

  /**
    "(Aydın, 2020) ve (Aydın ve Demir, 2021, s. 45)": the checker extracts
    both citations, while the profile counts only the plain one as an
    in-text citation, and the `s. 45` as a page reference.
  */
  lemma AydinDemirCounted()
    ensures ExtractInTextCitations("(Aydın, 2020) ve (Aydın ve Demir, 2021, s. 45)", Basic) ==
      [("Aydın", "2020"), ("Aydın ve Demir", "2021")]
    ensures CitationCounts(["(Aydın, 2020) ve (Aydın ve Demir, 2021, s. 45)"], Basic) ==
      [("in_text", 1), ("et_al", 0), ("page_ref", 1)]
  {
    AydinParts();
    AydinDemirShape();
    HeadlineParts();
    assert AllDigits("2021");
    assert 's' !in "Aydın" + "Aydın ve Demir" && 't' !in "Aydın" + "Aydın ve Demir" && Between(" ve ");
    PlainThenPaged(PlainCitation("Aydın", "2020"), " ve ", PagedCitation("Aydın ve Demir", "2021", "45"),
      "Aydın", "2020", "Aydın ve Demir", "2021", "45");
  }
}
