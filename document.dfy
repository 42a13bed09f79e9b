/**
  The word-processing document as the builder sees it: a list of blocks,
  and three views of such a list (its headings of one level, its page
  breaks, the texts of its paragraphs).
*/
module Document {
  import opened Strings

  /** A run of text in a paragraph, with the character formatting the builder sets. */
  datatype Run = Run(text: string, bold: bool, italic: bool)

  datatype Block =
    | Heading(text: string, level: int)
    | Paragraph(runs: seq<Run>)
    | PageBreak

  /** `add_paragraph(text)`: the text becomes one plain run, and an empty text none. */
  function Para(text: string): Block {
    Paragraph(if text == "" then [] else [Run(text, false, false)])
  }

  /** A bold caption run followed by an italic run of the comma-joined keywords. */
  function KeywordsPara(caption: string, keywords: seq<string>): Block {
    Paragraph([Run(caption, true, false), Run(Join(", ", keywords), false, true)])
  }

  function HeadingText(b: Block, level: int): seq<string> {
    if b.Heading? && b.level == level then [b.text] else []
  }

  function BreakMark(b: Block): nat {
    if b.PageBreak? then 1 else 0
  }

  function RunsText(runs: seq<Run>): string {
    if runs == [] then "" else runs[0].text + RunsText(runs[1..])
  }

  function ParagraphText(b: Block): seq<string> {
    if b.Paragraph? then [RunsText(b.runs)] else []
  }

  /** The texts of the headings of `level`, in document order. */
  function Headings(bs: seq<Block>, level: int): (ts: seq<string>)
    ensures |ts| <= |bs|
  {
    if bs == [] then [] else HeadingText(bs[0], level) + Headings(bs[1..], level)
  }

  /** The number of page breaks. */
  function Breaks(bs: seq<Block>): (n: nat)
    ensures n <= |bs|
  {
    if bs == [] then 0 else BreakMark(bs[0]) + Breaks(bs[1..])
  }

  /** The texts of the paragraphs, in document order. */
  function ParagraphTexts(bs: seq<Block>): (ts: seq<string>)
    ensures |ts| <= |bs|
  {
    if bs == [] then [] else ParagraphText(bs[0]) + ParagraphTexts(bs[1..])
  }

  lemma {:induction false} HeadingsAppend(a: seq<Block>, b: seq<Block>, level: int)
    ensures Headings(a + b, level) == Headings(a, level) + Headings(b, level)
  {
    if a == [] {
      assert a + b == b;
    } else {
      assert (a + b)[0] == a[0] && (a + b)[1..] == a[1..] + b;
      HeadingsAppend(a[1..], b, level);
    }
  }

  lemma {:induction false} BreaksAppend(a: seq<Block>, b: seq<Block>)
    ensures Breaks(a + b) == Breaks(a) + Breaks(b)
  {
    if a == [] {
      assert a + b == b;
    } else {
      assert (a + b)[0] == a[0] && (a + b)[1..] == a[1..] + b;
      BreaksAppend(a[1..], b);
    }
  }

  lemma {:induction false} ParagraphTextsAppend(a: seq<Block>, b: seq<Block>)
    ensures ParagraphTexts(a + b) == ParagraphTexts(a) + ParagraphTexts(b)
  {
    if a == [] {
      assert a + b == b;
    } else {
      assert (a + b)[0] == a[0] && (a + b)[1..] == a[1..] + b;
      ParagraphTextsAppend(a[1..], b);
    }
  }

  /** Each view of two block lists one after the other is the two views one after the other. */
  lemma ViewsAppend(a: seq<Block>, b: seq<Block>, level: int)
    ensures Headings(a + b, level) == Headings(a, level) + Headings(b, level)
    ensures Breaks(a + b) == Breaks(a) + Breaks(b)
    ensures ParagraphTexts(a + b) == ParagraphTexts(a) + ParagraphTexts(b)
  {
    HeadingsAppend(a, b, level);
    BreaksAppend(a, b);
    ParagraphTextsAppend(a, b);
  }

  lemma HeadingsCons(b: Block, bs: seq<Block>, level: int)
    ensures Headings([b] + bs, level) == HeadingText(b, level) + Headings(bs, level)
  {
    assert ([b] + bs)[0] == b && ([b] + bs)[1..] == bs;
  }

  lemma BreaksCons(b: Block, bs: seq<Block>)
    ensures Breaks([b] + bs) == BreakMark(b) + Breaks(bs)
  {
    assert ([b] + bs)[0] == b && ([b] + bs)[1..] == bs;
  }

  lemma ParagraphTextsCons(b: Block, bs: seq<Block>)
    ensures ParagraphTexts([b] + bs) == ParagraphText(b) + ParagraphTexts(bs)
  {
    assert ([b] + bs)[0] == b && ([b] + bs)[1..] == bs;
  }

  /** The views of a one-block list. */
  lemma Views1(b: Block, level: int)
    ensures Headings([b], level) == HeadingText(b, level)
    ensures Breaks([b]) == BreakMark(b)
    ensures ParagraphTexts([b]) == ParagraphText(b)
  {
    assert [b][1..] == [];
  }

  /** The views of a two-block list. */
  lemma Views2(b0: Block, b1: Block, level: int)
    ensures Headings([b0, b1], level) == HeadingText(b0, level) + HeadingText(b1, level)
    ensures Breaks([b0, b1]) == BreakMark(b0) + BreakMark(b1)
    ensures ParagraphTexts([b0, b1]) == ParagraphText(b0) + ParagraphText(b1)
  {
    assert [b0, b1][1..] == [b1] && [b1][1..] == [];
  }

  lemma ParaText(t: string)
    ensures ParagraphText(Para(t)) == [t]
  {
    if t != "" {
      var runs := [Run(t, false, false)];
      assert Para(t).runs == runs;
      assert runs[1..] == [];
      assert RunsText(runs[1..]) == "";
      assert RunsText(runs) == t + "";
      assert RunsText(runs) == t;
    }
  }

  lemma KeywordsText(caption: string, keywords: seq<string>)
    ensures ParagraphText(KeywordsPara(caption, keywords)) == [caption + Join(", ", keywords)]
  {
    var runs := KeywordsPara(caption, keywords).runs;
    assert runs[1..] == [runs[1]] && runs[1..][1..] == [];
    assert RunsText(runs[1..][1..]) == "";
    assert RunsText(runs[1..]) == runs[1].text;
    assert RunsText(runs) == caption + Join(", ", keywords);
  }
}
