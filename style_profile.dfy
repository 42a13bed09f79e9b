/**
  The style profiler: it reads a corpus of documents and reports document,
  vocabulary, sentence, citation and terminology statistics.

  Each statistic is first defined as a function of the loaded texts; the
  `StyleProfiler` class holds the texts and computes the same statistics
  with loops over the texts, proved equal to those functions.
*/
module StyleProfile {
  import opened Wrappers
  import opened Chars
  import opened Strings
  import opened Regex
  import opened Counting
  import opened Json

  /**
    A number in the profile.  A guarded quotient is the `int` 0 when the
    guard fails and a `float` otherwise; floats are modelled as exact reals.
  */
  datatype Num = IntNum(i: int) | FloatNum(r: real) {
    function Value(): real {
      match this
      case IntNum(i) => i as real
      case FloatNum(r) => r
    }
  }

  /** `a / b if b else 0`: the mean when there is something to divide by. */
  function Ratio(a: nat, b: nat): (q: Num)
    ensures b == 0 <==> q == IntNum(0)
    ensures b > 0 ==> q.FloatNum? && q.r * (b as real) == a as real
  {
    if b == 0 then IntNum(0) else FloatNum(a as real / b as real)
  }

  datatype Vocabulary = Vocabulary(
    totalTokens: nat,
    uniqueTokens: nat,
    top50Words: seq<(string, nat)>,
    lexicalDiversity: Num)

  datatype SentenceStructure = SentenceStructure(
    avgSentenceLength: Num,
    medianSentenceLength: int,
    totalSentences: nat)

  /** The profile, with the dictionaries' keys in the order the original inserts them. */
  datatype Profile = Profile(
    documentCount: nat,
    avgDocLength: Num,
    vocabulary: Vocabulary,
    sentenceStructure: SentenceStructure,
    citations: seq<(string, nat)>,
    terminology: seq<string>)

  // ----- documents -----

  /** `sum(len(t.split()) for t in texts)` */
  function TotalWords(texts: seq<string>, rules: CharRules): nat {
    if texts == [] then 0
    else TotalWords(texts[..|texts| - 1], rules) + |Split(texts[|texts| - 1], rules.isSpace)|
  }

  // ----- vocabulary -----

  /** `re.findall(r'\b\w+\b', text.lower())` */
  function Tokens(text: string, rules: CharRules): seq<string> {
    var s := rules.lower(text);
    MatchedText(s, FindAll(Word, s, rules))
  }

  /** The tokens of all texts, in order. */
  function AllWords(texts: seq<string>, rules: CharRules): seq<string> {
    if texts == [] then []
    else AllWords(texts[..|texts| - 1], rules) + Tokens(texts[|texts| - 1], rules)
  }

  function VocabularyOf(words: seq<string>): Vocabulary {
    var unique := |Counter(words)|;
    Vocabulary(|words|, unique, MostCommon(words, 50), Ratio(unique, |words|))
  }

  /** Each token is a non-empty run of word characters of the lower-cased text. */
  lemma TokensAreWords(text: string, rules: CharRules)
    ensures var ws := Tokens(text, rules);
      forall k :: 0 <= k < |ws| ==> ws[k] != [] && forall c :: 0 <= c < |ws[k]| ==> rules.isWord(ws[k][c])
  {
    var s := rules.lower(text);
    var ms := FindAll(Word, s, rules);
    var ws := Tokens(text, rules);
    forall k | 0 <= k < |ws| ensures ws[k] != [] && forall c :: 0 <= c < |ws[k]| ==> rules.isWord(ws[k][c]) {
      FindAllSound(Word, s, rules, k);
      var f := ms[k];
      assert ws[k] == s[f.start..f.end];
      forall c | 0 <= c < |ws[k]| ensures rules.isWord(ws[k][c]) { assert ws[k][c] == s[f.start + c]; }
    }
  }

  /**
    The vocabulary counts: there are no more distinct tokens than tokens,
    the diversity is their ratio and lies in [0, 1], it is 0 exactly when
    there are no tokens, and it is 1 exactly when no token repeats.
  */
  lemma VocabularyBounds(words: seq<string>)
    ensures var v := VocabularyOf(words);
      v.totalTokens == |words| &&
      v.uniqueTokens == |Distinct(words)| &&
      v.uniqueTokens <= v.totalTokens &&
      (words == [] <==> v.uniqueTokens == 0) &&
      0.0 <= v.lexicalDiversity.Value() <= 1.0 &&
      (v.lexicalDiversity.Value() == 0.0 <==> words == []) &&
      (v.lexicalDiversity.Value() == 1.0 <==> words != [] && NoDuplicates(words))
  {
    DistinctAllUnique(words);
    if words != [] {
      assert words[0] in Distinct(words);
      RatioOfAtMost(|Distinct(words)|, |words|);
    }
  }

  /** `q` is `total` shared out evenly over `count`. */
  predicate IsMean(q: Num, total: nat, count: nat) {
    q.Value() * (count as real) == total as real
  }

  /** The quotient times the divisor gives back the dividend. */
  lemma RatioMean(q: Num, a: nat, b: nat)
    requires q == Ratio(a, b) && (b == 0 ==> a == 0)
    ensures IsMean(q, a, b)
  {
    if b > 0 {
      assert q.Value() == q.r;
    }
  }

  /** A ratio of a positive count to a larger or equal one lies in (0, 1], and is 1 exactly when they are equal. */
  lemma RatioOfAtMost(a: nat, b: nat)
    requires 0 < a <= b
    ensures 0.0 < Ratio(a, b).Value() <= 1.0
    ensures Ratio(a, b).Value() == 1.0 <==> a == b
  {
    var q := a as real / b as real;
    assert q * (b as real) == a as real;
    if q == 1.0 { assert a as real == 1.0 * (b as real); }
  }

  /** A ratio of a count to a positive smaller or equal one is at least 1. */
  lemma RatioAtLeastOne(a: nat, b: nat)
    requires 0 < b <= a
    ensures Ratio(a, b).Value() >= 1.0
  {
    var q := a as real / b as real;
    assert q * (b as real) == a as real;
  }

  // ----- sentences -----

  predicate NoTerminator(s: string) {
    forall c :: 0 <= c < |s| ==> !IsTerminator(s[c])
  }

  /** `re.split(r'[.!?]+', s)`: the pieces between maximal runs of terminators. */
  function SplitTerminators(s: string): (ps: seq<string>)
    ensures |ps| >= 1
    ensures forall k :: 0 <= k < |ps| ==> NoTerminator(ps[k])
    decreases |s|
  {
    var j := RunEnd(s, 0, IsTerminator, false);
    if j == |s| then [s]
    else [s[..j]] + SplitTerminators(s[RunEnd(s, j, IsTerminator, true)..])
  }

  /** A sentence as the profiler keeps it: non-empty, stripped, and free of terminators. */
  predicate IsSentence(t: string, rules: CharRules) {
    t != [] && !rules.isSpace(t[0]) && !rules.isSpace(t[|t| - 1]) && NoTerminator(t)
  }

  /** `[s.strip() for s in pieces if s.strip()]` */
  function StrippedPieces(ps: seq<string>, rules: CharRules): (r: seq<string>)
    requires forall k :: 0 <= k < |ps| ==> NoTerminator(ps[k])
    ensures |r| <= |ps|
    ensures forall k :: 0 <= k < |r| ==> IsSentence(r[k], rules)
  {
    if ps == [] then []
    else
      var t := Strip(ps[0], rules.isSpace);
      StripNoTerminator(ps[0], rules.isSpace);
      (if t == [] then [] else [t]) + StrippedPieces(ps[1..], rules)
  }

  /** Stripping a piece without terminators leaves none in it. */
  lemma StripNoTerminator(s: string, isSpace: char -> bool)
    requires NoTerminator(s)
    ensures NoTerminator(Strip(s, isSpace))
  {
    var t := Strip(s, isSpace);
    var a := RunEnd(s, 0, isSpace, true);
    forall c | 0 <= c < |t| ensures !IsTerminator(t[c]) {
      assert t[c] == s[a + c];
    }
  }

  function Sentences(text: string, rules: CharRules): seq<string> {
    StrippedPieces(SplitTerminators(text), rules)
  }

  /** The sentences of all texts, in order. */
  function AllSentences(texts: seq<string>, rules: CharRules): (ss: seq<string>)
    ensures forall k :: 0 <= k < |ss| ==> IsSentence(ss[k], rules)
  {
    if texts == [] then []
    else AllSentences(texts[..|texts| - 1], rules) + Sentences(texts[|texts| - 1], rules)
  }

  /** `[len(s.split()) for s in sentences]` */
  function Lengths(ss: seq<string>, rules: CharRules): (ls: seq<nat>)
    ensures |ls| == |ss|
  {
    seq(|ss|, k requires 0 <= k < |ss| => |Split(ss[k], rules.isSpace)|)
  }

  function Sum(xs: seq<nat>): nat {
    if xs == [] then 0 else Sum(xs[..|xs| - 1]) + xs[|xs| - 1]
  }

  /** `sorted(lengths)[len(lengths) // 2] if lengths else 0` */
  function Median(ls: seq<nat>): int {
    if ls == [] then 0 else SortAscending(ls)[|ls| / 2]
  }

  /** `sum(lengths) / len(lengths) if lengths else 0` */
  function AverageLength(ss: seq<string>, rules: CharRules): Num {
    Ratio(Sum(Lengths(ss, rules)), |ss|)
  }

  function SentenceStructureOf(ss: seq<string>, rules: CharRules): SentenceStructure {
    SentenceStructure(AverageLength(ss, rules), Median(Lengths(ss, rules)), |ss|)
  }

  /** A text without terminators is one piece. */
  lemma SplitTerminatorsNone(s: string)
    requires NoTerminator(s)
    ensures SplitTerminators(s) == [s]
  {
    RunEndIs(s, 0, IsTerminator, false, |s|);
  }

  /** A terminator ends the first piece, and the split goes on after it. */
  lemma SplitTerminatorsAt(a: string, c: char, b: string)
    requires NoTerminator(a) && IsTerminator(c)
    requires b == [] || !IsTerminator(b[0])
    ensures SplitTerminators(a + [c] + b) == [a] + SplitTerminators(b)
  {
    var s := a + [c] + b;
    RunEndIs(s, 0, IsTerminator, false, |a|);
    RunEndIs(s, |a|, IsTerminator, true, |a| + 1);
    assert s[..|a|] == a && s[|a| + 1..] == b;
  }

  /** A sentence the profiler keeps has at least one word. */
  lemma SentenceHasWord(t: string, rules: CharRules)
    requires IsSentence(t, rules)
    ensures |Split(t, rules.isSpace)| >= 1
  {
  }

  /**
    The median is one of the lengths, with at most half of the lengths
    (rounded down) below it and at most the rest above it; without
    sentences it is 0.
  */
  lemma MedianRank(ls: seq<nat>)
    ensures ls == [] ==> Median(ls) == 0
    ensures ls != [] ==>
      Median(ls) in ls &&
      CountBelow(ls, Median(ls)) <= |ls| / 2 &&
      CountAbove(ls, Median(ls)) <= |ls| - 1 - |ls| / 2
  {
    if ls != [] {
      var t := SortAscending(ls);
      SortAscendingFacts(ls);
      AscendingRanks(t, |ls| / 2);
      assert t[|ls| / 2] in multiset(t);
    }
  }

  /** Every sentence kept has at least one word, so there are at least as many words as sentences. */
  lemma SentenceCounts(ss: seq<string>, rules: CharRules)
    requires forall k :: 0 <= k < |ss| ==> IsSentence(ss[k], rules)
    ensures var ls := Lengths(ss, rules);
      SentenceStructureOf(ss, rules).totalSentences == |ss| &&
      (forall k :: 0 <= k < |ls| ==> ls[k] >= 1) &&
      Sum(ls) >= |ls|
  {
    LengthsPositive(ss, rules);
    SumAtLeastLength(Lengths(ss, rules));
  }

  /** The average sentence length is the mean number of words per sentence, and the int 0 without sentences. */
  lemma AverageIsMean(ss: seq<string>, rules: CharRules)
    ensures var avg := AverageLength(ss, rules);
      (ss == [] <==> avg == IntNum(0)) &&
      avg.Value() * (|ss| as real) == Sum(Lengths(ss, rules)) as real
  {
    if ss == [] {
      assert Lengths(ss, rules) == [];
    }
  }

  /** With sentences, the average is at least one word. */
  lemma AverageAtLeastOne(ss: seq<string>, rules: CharRules)
    requires forall k :: 0 <= k < |ss| ==> IsSentence(ss[k], rules)
    requires ss != []
    ensures AverageLength(ss, rules).Value() >= 1.0
  {
    var ls := Lengths(ss, rules);
    LengthsPositive(ss, rules);
    SumAtLeastLength(ls);
    RatioAtLeastOne(Sum(ls), |ls|);
  }

  lemma LengthsPositive(ss: seq<string>, rules: CharRules)
    requires forall k :: 0 <= k < |ss| ==> IsSentence(ss[k], rules)
    ensures forall k :: 0 <= k < |ss| ==> Lengths(ss, rules)[k] >= 1
  {
    forall k | 0 <= k < |ss| ensures Lengths(ss, rules)[k] >= 1 {
      SentenceHasWord(ss[k], rules);
    }
  }

  lemma {:induction false} SumAtLeastLength(xs: seq<nat>)
    requires forall k :: 0 <= k < |xs| ==> xs[k] >= 1
    ensures Sum(xs) >= |xs|
  {
    if xs != [] {
      SumAtLeastLength(xs[..|xs| - 1]);
    }
  }

  // ----- citations -----

  /** `sum(len(re.findall(pattern, text)) for text in texts)` */
  function PatternTotal(pat: Pattern, texts: seq<string>, rules: CharRules): nat {
    if texts == [] then 0
    else PatternTotal(pat, texts[..|texts| - 1], rules) + |FindAll(pat, texts[|texts| - 1], rules)|
  }

  /** The per-text counts add up: counting two corpora together is counting each apart. */
  lemma {:induction false} PatternTotalAppend(pat: Pattern, a: seq<string>, b: seq<string>, rules: CharRules)
    ensures PatternTotal(pat, a + b, rules) == PatternTotal(pat, a, rules) + PatternTotal(pat, b, rules)
    decreases |b|
  {
    if b != [] {
      var b' := b[..|b| - 1];
      assert (a + b)[..|a + b| - 1] == a + b';
      assert (a + b)[|a + b| - 1] == b[|b| - 1];
      PatternTotalAppend(pat, a, b', rules);
    } else {
      assert a + b == a;
    }
  }

  /** The three citation patterns, in the order of the original's dictionary. */
  const CitationPatterns: seq<(string, Pattern)> := [("in_text", InText), ("et_al", EtAl), ("page_ref", PageRef)]

  function CitationCounts(texts: seq<string>, rules: CharRules): (counts: seq<(string, nat)>)
    ensures |counts| == |CitationPatterns|
  {
    seq(|CitationPatterns|, k requires 0 <= k < |CitationPatterns| =>
      (CitationPatterns[k].0, PatternTotal(CitationPatterns[k].1, texts, rules)))
  }

  /** A text without an opening parenthesis holds no in-text citation. */
  lemma NoParenNoInText(texts: seq<string>, rules: CharRules)
    requires forall k :: 0 <= k < |texts| ==> '(' !in texts[k]
    ensures PatternTotal(InText, texts, rules) == 0
    decreases |texts|
  {
    if texts != [] {
      var t := texts[|texts| - 1];
      NoParenNoInText(texts[..|texts| - 1], rules);
      FindAllEmpty(InText, t, rules);
      forall q | 0 <= q < |t| ensures MatchAt(InText, t, rules, q).None? {
        assert t[q] in t;
      }
    }
  }

  // ----- terminology -----

  /** A term as the pattern finds it: an upper-case Turkish letter and at least three lower-case ones. */
  predicate IsTermShape(t: string) {
    |t| >= 4 && IsUpperTr(t[0]) && forall c :: 1 <= c < |t| ==> IsLowerTr(t[c])
  }

  /** `re.findall(r'\b[A-ZÇĞİÖŞÜ][a-zçğıöşü]{3,}\b', " ".join(texts))` */
  function CorpusTerms(texts: seq<string>, rules: CharRules): seq<string> {
    var all := Join(" ", texts);
    MatchedText(all, FindAll(Term, all, rules))
  }

  /** `[key for key, count in c if count > min]` */
  function Frequent(c: seq<(string, nat)>, min: nat): (ks: seq<string>)
    ensures |ks| <= |c|
  {
    if c == [] then [] else (if c[0].1 > min then [c[0].0] else []) + Frequent(c[1..], min)
  }

  function Terminology(texts: seq<string>, rules: CharRules): seq<string> {
    Frequent(MostCommon(CorpusTerms(texts, rules), 100), 3)
  }

  lemma CorpusTermsShape(texts: seq<string>, rules: CharRules)
    ensures var ts := CorpusTerms(texts, rules); forall k :: 0 <= k < |ts| ==> IsTermShape(ts[k])
  {
    var all := Join(" ", texts);
    var ms := FindAll(Term, all, rules);
    forall k | 0 <= k < |ms| ensures IsTermShape(all[ms[k].start..ms[k].end]) {
      FindAllSound(Term, all, rules, k);
      var t := all[ms[k].start..ms[k].end];
      forall c | 1 <= c < |t| ensures IsLowerTr(t[c]) { assert t[c] == all[ms[k].start + c]; }
    }
  }

  /** On counts in non-increasing order, keeping the large counts keeps a prefix; the rest are small. */
  lemma {:induction false} FrequentPrefix(c: seq<(string, nat)>, min: nat)
    requires NonIncreasing(c)
    ensures var ks := Frequent(c, min);
      ks == Keys(c[..|ks|]) &&
      (forall k :: 0 <= k < |ks| ==> c[k].1 > min) &&
      (forall k :: |ks| <= k < |c| ==> c[k].1 <= min)
  {
    if c != [] {
      var t := c[1..];
      assert NonIncreasing(t);
      FrequentPrefix(t, min);
      var kt := Frequent(t, min);
      if c[0].1 > min {
        assert Keys(c[..|kt| + 1]) == [c[0].0] + Keys(t[..|kt|]) by {
          assert c[..|kt| + 1][1..] == t[..|kt|];
        }
      } else {
        assert kt == [];
      }
    }
  }

  /** The terms kept are the first entries of the 100 most common, exactly those counted more than three times. */
  lemma FrequentTerms(terms: seq<string>)
    ensures var top := MostCommon(terms, 100);
      var ts := Frequent(top, 3);
      |ts| <= |top| <= 100 &&
      (forall k :: 0 <= k < |ts| ==> ts[k] == top[k].0 && top[k].1 > 3) &&
      (forall k :: |ts| <= k < |top| ==> top[k].1 <= 3)
  {
    var top := MostCommon(terms, 100);
    var ts := Frequent(top, 3);
    MostCommonPrefix(terms, 100);
    MostCommonOrdered(terms, 100);
    FrequentPrefix(top, 3);
    forall k | 0 <= k < |ts| ensures ts[k] == top[k].0 {
      assert ts[k] == Keys(top[..|ts|])[k];
    }
  }

  lemma FrequentTermsCounted(terms: seq<string>)
    ensures var ts := Frequent(MostCommon(terms, 100), 3);
      |ts| <= 100 && forall k :: 0 <= k < |ts| ==> ts[k] in terms && Count(terms, ts[k]) > 3
  {
    FrequentTerms(terms);
    MostCommonExact(terms, 100);
  }

  lemma FrequentTermsOrdered(terms: seq<string>)
    ensures var ts := Frequent(MostCommon(terms, 100), 3);
      NoDuplicates(ts) &&
      forall i, j :: 0 <= i < j < |ts| ==> Count(terms, ts[i]) >= Count(terms, ts[j])
  {
    var top := MostCommon(terms, 100);
    var ts := Frequent(top, 3);
    FrequentTerms(terms);
    MostCommonExact(terms, 100);
    MostCommonUnique(terms, 100);
    MostCommonOrdered(terms, 100);
    forall i, j | 0 <= i < j < |ts| ensures ts[i] != ts[j] {
      assert Keys(top)[i] == ts[i] && Keys(top)[j] == ts[j];
    }
  }

  lemma FrequentTermsComplete(terms: seq<string>, t: string)
    requires t in terms && Count(terms, t) > 3
    requires t !in Frequent(MostCommon(terms, 100), 3)
    ensures var ts := Frequent(MostCommon(terms, 100), 3);
      |ts| == 100 && Count(terms, t) <= Count(terms, ts[99])
  {
    var top := MostCommon(terms, 100);
    var ts := Frequent(top, 3);
    FrequentTerms(terms);
    MostCommonExact(terms, 100);
    assert t !in Keys(top);
    MostCommonDominates(terms, 100, t);
    assert top[99].1 > 3;
  }

  lemma ShapedMember(terms: seq<string>, x: string)
    requires forall k :: 0 <= k < |terms| ==> IsTermShape(terms[k])
    requires x in terms
    ensures IsTermShape(x)
  {
    var j :| 0 <= j < |terms| && terms[j] == x;
  }

  /**
    `_extract_terminology`: at most 100 terms, each of the term shape,
    occurring more than three times in the joined corpus, no term twice,
    in non-increasing order of frequency; a term occurring more than three
    times is left out only when 100 terms at least as frequent are listed.
  */
  lemma TerminologyFacts(texts: seq<string>, rules: CharRules)
    ensures var terms := CorpusTerms(texts, rules);
      var ts := Terminology(texts, rules);
      |ts| <= 100 &&
      (forall k :: 0 <= k < |ts| ==> IsTermShape(ts[k]) && Count(terms, ts[k]) > 3) &&
      NoDuplicates(ts) &&
      (forall i, j :: 0 <= i < j < |ts| ==> Count(terms, ts[i]) >= Count(terms, ts[j])) &&
      (forall t :: t in terms && Count(terms, t) > 3 && t !in ts ==>
        |ts| == 100 && Count(terms, t) <= Count(terms, ts[99]))
  {
    var terms := CorpusTerms(texts, rules);
    var ts := Terminology(texts, rules);
    FrequentTermsCounted(terms);
    FrequentTermsOrdered(terms);
    CorpusTermsShape(texts, rules);
    forall k | 0 <= k < |ts| ensures IsTermShape(ts[k]) {
      ShapedMember(terms, ts[k]);
    }
    forall t | t in terms && Count(terms, t) > 3 && t !in ts
      ensures |ts| == 100 && Count(terms, t) <= Count(terms, ts[99])
    {
      FrequentTermsComplete(terms, t);
    }
  }

  // ----- the profile -----

  function ProfileOf(texts: seq<string>, rules: CharRules): Profile {
    Profile(
      |texts|,
      Ratio(TotalWords(texts, rules), |texts|),
      VocabularyOf(AllWords(texts, rules)),
      SentenceStructureOf(AllSentences(texts, rules), rules),
      CitationCounts(texts, rules),
      Terminology(texts, rules))
  }

  /** The word counts of two corpora add up. */
  lemma {:induction false} TotalWordsAppend(a: seq<string>, b: seq<string>, rules: CharRules)
    ensures TotalWords(a + b, rules) == TotalWords(a, rules) + TotalWords(b, rules)
    decreases |b|
  {
    if b != [] {
      var b' := b[..|b| - 1];
      assert (a + b)[..|a + b| - 1] == a + b';
      assert (a + b)[|a + b| - 1] == b[|b| - 1];
      TotalWordsAppend(a, b', rules);
    } else {
      assert a + b == a;
    }
  }

  /**
    The document count is the number of texts, and the average document
    length is the mean number of `split()` words per text, or the int 0 for
    an empty corpus.
  */
  lemma DocumentStats(texts: seq<string>, rules: CharRules)
    ensures var p := ProfileOf(texts, rules);
      p.documentCount == |texts| &&
      (texts == [] <==> p.avgDocLength == IntNum(0)) &&
      IsMean(p.avgDocLength, TotalWords(texts, rules), |texts|)
  {
    var total := TotalWords(texts, rules);
    assert texts == [] ==> total == 0;
    RatioMean(ProfileOf(texts, rules).avgDocLength, total, |texts|);
  }

  /** An empty corpus gives zeros everywhere, with the int 0 for every guarded quotient. */
  lemma EmptyCorpus(rules: CharRules)
    ensures ProfileOf([], rules) == Profile(
      0, IntNum(0),
      Vocabulary(0, 0, [], IntNum(0)),
      SentenceStructure(IntNum(0), 0, 0),
      [("in_text", 0), ("et_al", 0), ("page_ref", 0)],
      [])
  {
    var c := Counter<string>([]);
    assert c == [];
    assert SortByCount(c) == [];
    assert CorpusTerms([], rules) == [] by {
      assert FindAll(Term, Join(" ", []), rules) == [];
    }
  }

  /** The profile as `json.dump` writes it and `json.load` reads it back. */
  function NumJson(n: Num): (j: Json)
    ensures j.JInt? <==> n.IntNum?
    ensures (j.JInt? && j.i as real == n.Value()) || (j.JFloat? && j.r == n.Value())
  {
    match n
    case IntNum(i) => JInt(i)
    case FloatNum(r) => JFloat(r)
  }

  function CountsJson(c: seq<(string, nat)>): (fields: seq<(string, Json)>)
    ensures |fields| == |c|
    ensures forall k :: 0 <= k < |c| ==> fields[k] == (c[k].0, JInt(c[k].1))
  {
    if c == [] then [] else [(c[0].0, JInt(c[0].1))] + CountsJson(c[1..])
  }

  function TermsJson(ts: seq<string>): (js: seq<Json>)
    ensures |js| == |ts|
    ensures forall k :: 0 <= k < |ts| ==> js[k] == JStr(ts[k])
  {
    if ts == [] then [] else [JStr(ts[0])] + TermsJson(ts[1..])
  }

  function VocabularyJson(v: Vocabulary): Json {
    JObject([
      ("total_tokens", JInt(v.totalTokens)),
      ("unique_tokens", JInt(v.uniqueTokens)),
      ("top_50_words", JObject(CountsJson(v.top50Words))),
      ("lexical_diversity", NumJson(v.lexicalDiversity))])
  }

  function SentenceJson(s: SentenceStructure): Json {
    JObject([
      ("avg_sentence_length", NumJson(s.avgSentenceLength)),
      ("median_sentence_length", JInt(s.medianSentenceLength)),
      ("total_sentences", JInt(s.totalSentences))])
  }

  function ProfileToJson(p: Profile): Json {
    JObject([
      ("document_count", JInt(p.documentCount)),
      ("avg_doc_length", NumJson(p.avgDocLength)),
      ("vocabulary", VocabularyJson(p.vocabulary)),
      ("sentence_structure", SentenceJson(p.sentenceStructure)),
      ("citations", JObject(CountsJson(p.citations))),
      ("terminology", JList(TermsJson(p.terminology)))])
  }

  /** The keys of the written profile, in the order `analyze` inserts them; the last two read back to their values. */
  lemma ProfileJsonKeys(p: Profile)
    ensures var f := ProfileToJson(p).fields;
      KeyList(f) == ["document_count", "avg_doc_length", "vocabulary", "sentence_structure", "citations",
                     "terminology"] &&
      Lookup(f, "citations") == Some(JObject(CountsJson(p.citations))) &&
      Lookup(f, "terminology") == Some(JList(TermsJson(p.terminology)))
  {
    var f := ProfileToJson(p).fields;
    assert Names(f) == ["document_count", "avg_doc_length", "vocabulary", "sentence_structure", "citations",
                        "terminology"];
    KeyListUnique(f);
    LookupUnique(f, 4);
    LookupUnique(f, 5);
  }

  /** The keys of the written vocabulary, in insertion order; the two counts read back to their values. */
  lemma VocabularyJsonKeys(v: Vocabulary)
    ensures var f := VocabularyJson(v).fields;
      KeyList(f) == ["total_tokens", "unique_tokens", "top_50_words", "lexical_diversity"] &&
      Lookup(f, "total_tokens") == Some(JInt(v.totalTokens)) &&
      Lookup(f, "unique_tokens") == Some(JInt(v.uniqueTokens))
  {
    var f := VocabularyJson(v).fields;
    assert Names(f) == ["total_tokens", "unique_tokens", "top_50_words", "lexical_diversity"];
    KeyListUnique(f);
    LookupUnique(f, 0);
    LookupUnique(f, 1);
  }

  /** The keys of the written sentence structure, in insertion order; the median and the total read back. */
  lemma SentenceJsonKeys(s: SentenceStructure)
    ensures var f := SentenceJson(s).fields;
      KeyList(f) == ["avg_sentence_length", "median_sentence_length", "total_sentences"] &&
      Lookup(f, "median_sentence_length") == Some(JInt(s.medianSentenceLength)) &&
      Lookup(f, "total_sentences") == Some(JInt(s.totalSentences))
  {
    var f := SentenceJson(s).fields;
    assert Names(f) == ["avg_sentence_length", "median_sentence_length", "total_sentences"];
    KeyListUnique(f);
    LookupUnique(f, 1);
    LookupUnique(f, 2);
  }

  // ----- the profiler object -----

  /** One line of the corpus file: its `text` member, if it has one. */
  datatype CorpusRecord = CorpusRecord(text: Option<string>)

  /** `obj['text']` failed: a record without a `text` member. */
  datatype LoadError = MissingText

  /** The texts `load_corpus` appends: those of the records before the first one without a text. */
  function LoadedTexts(records: seq<CorpusRecord>): (ts: seq<string>)
    ensures |ts| <= |records|
    ensures forall k :: 0 <= k < |ts| ==> records[k].text == Some(ts[k])
    ensures |ts| < |records| ==> records[|ts|].text.None?
  {
    if records == [] then []
    else match records[0].text
      case None => []
      case Some(t) => [t] + LoadedTexts(records[1..])
  }

  class StyleProfiler {
    var texts: seq<string>

    constructor()
      ensures texts == []
    {
      texts := [];
    }

    /**
      Appends the text of each record in turn; a record without a text
      stops the load with an error, keeping the texts appended before it.
    */
    method LoadCorpus(records: seq<CorpusRecord>) returns (outcome: Result<(), LoadError>)
      modifies this
      ensures texts == old(texts) + LoadedTexts(records)
      ensures outcome.Ok? <==> forall k :: 0 <= k < |records| ==> records[k].text.Some?
    {
      ghost var loaded := LoadedTexts(records);
      var i := 0;
      while i < |records|
        invariant i <= |loaded|
        invariant forall k :: 0 <= k < i ==> records[k].text.Some?
        invariant texts == old(texts) + loaded[..i]
      {
        match records[i].text {
          case None =>
            assert |loaded| == i;
            assert loaded[..i] == loaded;
            return Err(MissingText);
          case Some(t) =>
            assert loaded[..i + 1] == loaded[..i] + [t];
            texts := texts + [t];
        }
        i := i + 1;
      }
      assert loaded[..i] == loaded;
      return Ok(());
    }

    method Analyze(rules: CharRules) returns (profile: Profile)
      ensures profile == ProfileOf(texts, rules)
    {
      var vocabulary := AnalyzeVocabulary(rules);
      var sentences := AnalyzeSentences(rules);
      var citations := AnalyzeCitations(rules);
      profile := Profile(|texts|, Ratio(TotalWords(texts, rules), |texts|), vocabulary, sentences,
                         citations, ExtractTerminology(rules));
    }

    method AnalyzeVocabulary(rules: CharRules) returns (v: Vocabulary)
      ensures v == VocabularyOf(AllWords(texts, rules))
    {
      var allWords: seq<string> := [];
      for i := 0 to |texts|
        invariant allWords == AllWords(texts[..i], rules)
      {
        assert texts[..i + 1][..i] == texts[..i];
        allWords := allWords + Tokens(texts[i], rules);
      }
      assert texts[..|texts|] == texts;
      v := VocabularyOf(allWords);
    }

    method AnalyzeSentences(rules: CharRules) returns (st: SentenceStructure)
      ensures st == SentenceStructureOf(AllSentences(texts, rules), rules)
    {
      var allSentences: seq<string> := [];
      for i := 0 to |texts|
        invariant allSentences == AllSentences(texts[..i], rules)
      {
        assert texts[..i + 1][..i] == texts[..i];
        allSentences := allSentences + Sentences(texts[i], rules);
      }
      assert texts[..|texts|] == texts;
      st := SentenceStructureOf(allSentences, rules);
    }

    method AnalyzeCitations(rules: CharRules) returns (counts: seq<(string, nat)>)
      ensures counts == CitationCounts(texts, rules)
    {
      counts := [];
      for i := 0 to |CitationPatterns|
        invariant counts == CitationCounts(texts, rules)[..i]
      {
        var total := PatternTotal(CitationPatterns[i].1, texts, rules);
        counts := counts + [(CitationPatterns[i].0, total)];
      }
    }

    /**
      At most 100 terms, each of the term shape and seen more than three
      times in the joined texts, without repeats, most frequent first.
    */
    function ExtractTerminology(rules: CharRules): (ts: seq<string>)
      reads this
      ensures |ts| <= 100 && NoDuplicates(ts)
      ensures var terms := CorpusTerms(texts, rules);
        forall k :: 0 <= k < |ts| ==> IsTermShape(ts[k]) && Count(terms, ts[k]) > 3
      ensures var terms := CorpusTerms(texts, rules);
        forall i, j :: 0 <= i < j < |ts| ==> Count(terms, ts[i]) >= Count(terms, ts[j])
    {
      TerminologyFacts(texts, rules);
      Terminology(texts, rules)
    }
  }
}
