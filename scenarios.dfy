/**
  Worked examples of the profiler and the citation checker on concrete
  texts, with the ASCII-and-Turkish character rules `Chars.Basic`.
*/
module Scenarios {
  import opened Wrappers
  import opened Chars
  import opened Strings
  import opened Counting
  import opened Regex
  import opened StyleProfile

  /** The words of a two-word sentence. */
  lemma TwoWords(b: string, c: string)
    requires b != [] && c != []
    requires Blankless(b, BasicSpace) && Blankless(c, BasicSpace)
    ensures Split(b + " " + c, BasicSpace) == [b, c]
  {
    BlanklessAll(b, BasicSpace);
    BlanklessAll(c, BasicSpace);
    SplitOneWord(c, BasicSpace);
    SplitWordBlank(b, c, BasicSpace);
  }

  /** The words of a three-word sentence. */
  lemma ThreeWords(a: string, b: string, c: string)
    requires a != [] && b != [] && c != []
    requires Blankless(a, BasicSpace) && Blankless(b, BasicSpace) && Blankless(c, BasicSpace)
    ensures Split(a + " " + b + " " + c, BasicSpace) == [a, b, c]
  {
    TwoWords(b, c);
    BlanklessAll(a, BasicSpace);
    SplitWordBlank(a, b + " " + c, BasicSpace);
    assert a + " " + b + " " + c == a + " " + (b + " " + c);
  }

  const Example: string := "Bu bir test. Bu ikinci cümle."

  /** Neither sentence of the example holds a terminator. */
  lemma ExampleNoTerminators()
    ensures NoTerminator("Bu bir test") && NoTerminator(" Bu ikinci cümle")
    ensures Example == "Bu bir test" + ['.'] + (" Bu ikinci cümle" + ['.'] + "")
  {
  }

  /** The example splits at its two full stops, leaving an empty last piece. */
  lemma ExamplePieces()
    ensures SplitTerminators(Example) == ["Bu bir test", " Bu ikinci cümle", ""]
  {
    var s1 := "Bu bir test";
    var p2 := " Bu ikinci cümle";
    ExampleNoTerminators();
    SplitTerminatorsAt(p2, '.', "");
    SplitTerminatorsNone("");
    SplitTerminatorsAt(s1, '.', p2 + ['.'] + "");
  }

  /** Stripping the second piece drops its leading blank. */
  lemma ExampleStrip()
    ensures Strip(" Bu ikinci cümle", BasicSpace) == "Bu ikinci cümle"
  {
    var p2 := " Bu ikinci cümle";
    RunEndIs(p2, 0, BasicSpace, true, 1);
    assert TrailingSpaces(p2[1..], BasicSpace) == 0;
  }

  /** Three pieces of which the last strips to nothing give two sentences. */
  lemma StrippedThree(ps: seq<string>, q2: string, rules: CharRules)
    requires |ps| == 3 && forall k :: 0 <= k < |ps| ==> NoTerminator(ps[k])
    requires Strip(ps[0], rules.isSpace) == ps[0] != [] && Strip(ps[1], rules.isSpace) == q2 != []
    requires Strip(ps[2], rules.isSpace) == []
    ensures StrippedPieces(ps, rules) == [ps[0], q2]
  {
    var r2 := ps[1..][1..];
    assert r2[1..] == [];
    assert StrippedPieces(r2, rules) == [] + StrippedPieces(r2[1..], rules);
    assert StrippedPieces(ps[1..], rules) == [q2] + StrippedPieces(r2, rules);
  }

  /** Stripping drops the blank after the first full stop and the empty last piece. */
  lemma ExampleSentences()
    ensures Sentences(Example, Basic) == ["Bu bir test", "Bu ikinci cümle"]
  {
    ExamplePieces();
    StripUnchanged("Bu bir test", BasicSpace);
    ExampleStrip();
    StrippedThree(SplitTerminators(Example), "Bu ikinci cümle", Basic);
  }

  lemma FirstSentenceWords()
    ensures "Bu bir test" == "Bu" + " " + "bir" + " " + "test"
  {
  }

  lemma SecondSentenceWords()
    ensures "Bu ikinci cümle" == "Bu" + " " + "ikinci" + " " + "cümle"
  {
  }

  lemma FirstSentenceLength()
    ensures |Split("Bu bir test", BasicSpace)| == 3
  {
    FirstSentenceWords();
    ThreeWords("Bu", "bir", "test");
  }

  lemma SecondSentenceLength()
    ensures |Split("Bu ikinci cümle", BasicSpace)| == 3
  {
    SecondSentenceWords();
    ThreeWords("Bu", "ikinci", "cümle");
  }

  lemma LengthsOfTwo(a: string, b: string)
    requires |Split(a, BasicSpace)| == 3 && |Split(b, BasicSpace)| == 3
    ensures Lengths([a, b], Basic) == [3, 3]
  {
  }

  /** Both sentences have three words. */
  lemma ExampleLengths()
    ensures Lengths(["Bu bir test", "Bu ikinci cümle"], Basic) == [3, 3]
  {
    FirstSentenceLength();
    SecondSentenceLength();
    LengthsOfTwo("Bu bir test", "Bu ikinci cümle");
  }

  /** One text's sentences are all the sentences of a one-text corpus. */
  lemma OneText(text: string, rules: CharRules)
    ensures AllSentences([text], rules) == Sentences(text, rules)
  {
    assert [text][..0] == [];
  }

  /** Two sentences of three words: an average of 3.0 and a median of 3. */
  lemma TwoOfThree(ss: seq<string>, rules: CharRules)
    requires |ss| == 2 && Lengths(ss, rules) == [3, 3]
    ensures SentenceStructureOf(ss, rules) == SentenceStructure(FloatNum(3.0), 3, 2)
  {
    var ls: seq<nat> := [3, 3];
    assert Sum(ls) == 6 by { assert ls[..1] == [3] && ls[..1][..0] == []; }
    assert SortAscending(ls) == [3, 3];
  }

  /**
    "Bu bir test. Bu ikinci cümle." holds two sentences of three words
    each: the average is 3.0 and the median 3.
  */
  lemma TwoSentences()
    ensures var ss := AllSentences([Example], Basic);
      ss == ["Bu bir test", "Bu ikinci cümle"] &&
      SentenceStructureOf(ss, Basic) == SentenceStructure(FloatNum(3.0), 3, 2)
  {
    ExampleSentences();
    OneText(Example, Basic);
    ExampleLengths();
    TwoOfThree(["Bu bir test", "Bu ikinci cümle"], Basic);
  }

  /** The median of the lengths [1, 2, 3, 4] is the element at index 2 of the sorted list: 3. */
  lemma EvenMedian()
    ensures Median([1, 2, 3, 4]) == 3
  {
    var xs: seq<nat> := [1, 2, 3, 4];
    assert xs[1..] == [2, 3, 4] && xs[2..] == [3, 4] && xs[3..] == [4] && xs[4..] == [];
    assert SortAscending([4]) == [4];
    assert SortAscending([3, 4]) == [3, 4];
    assert SortAscending([2, 3, 4]) == [2, 3, 4];
    assert SortAscending(xs) == [1, 2, 3, 4];
  }
}
