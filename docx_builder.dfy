/**
  The outline-to-document builder.  The word-processing document is an
  append-only list of blocks owned by the builder; an outline is the
  record the outline prompt asks the model for, with each optional field
  an `Option` (`None` where the key is absent).
*/
module DocxBuilder {
  import opened Wrappers
  import opened Strings
  import opened Document

  /** `subsections` entries: a string, a dictionary, or anything else. */
  datatype Subsection =
    | SubText(text: string)
    | SubObject(title: Option<string>, content: Option<string>)
    | SubOther

  datatype Section = Section(
    title: Option<string>,
    content: Option<string>,
    keyPoints: Option<seq<string>>,
    estimatedWords: Option<int>,
    requiredCitations: Option<int>,
    subsections: Option<seq<Subsection>>)

  /** `references` entries: a string, a dictionary, or anything else. */
  datatype Reference =
    | RefText(text: string)
    | RefObject(apaCitation: Option<string>, citation: Option<string>)
    | RefOther

  datatype Outline = Outline(
    title: Option<string>,
    abstractTr: Option<string>,
    keywordsTr: Option<seq<string>>,
    abstractEn: Option<string>,
    keywordsEn: Option<seq<string>>,
    sections: Option<seq<Section>>,
    references: Option<seq<Reference>>)

  const DefaultTitle: string := "Başlık"
  const AbstractTrHeading: string := "Özet"
  const KeywordsTrLabel: string := "Anahtar Kelimeler: "
  const AbstractEnHeading: string := "Abstract"
  const KeywordsEnLabel: string := "Keywords: "
  const DefaultWords: int := 500
  const DefaultCitations: int := 2
  const PointsLabel: string := "Ana noktalar:\n"
  const CitationsLabel: string := "\nMinimum atıf sayısı: "
  const SubsectionPlaceholder: string := "[Alt bölüm içeriği buraya gelecek]"
  const ContentPlaceholder: string := "[İçerik buraya gelecek]"
  const ReferencesHeading: string := "Kaynakça"
  const NoReferences: string := "[Kaynaklar buraya eklenecek]"

  // ---------------------------------------------------------------------
  // The blocks each part of the builder appends

  /** A summary: its level-1 heading, its text, and its keyword line. */
  function AbstractPart(heading: string, summary: string, caption: string, keywords: seq<string>): seq<Block> {
    [Heading(heading, 1), Para(summary), KeywordsPara(caption, keywords)]
  }

  /** Title, both abstracts with an empty paragraph between them, and the page break. */
  function FrontMatter(o: Outline): seq<Block> {
    [Heading(o.title.GetOr(DefaultTitle), 0)]
      + AbstractPart(AbstractTrHeading, o.abstractTr.GetOr(""), KeywordsTrLabel, o.keywordsTr.GetOr([]))
      + [Para("")]
      + AbstractPart(AbstractEnHeading, o.abstractEn.GetOr(""), KeywordsEnLabel, o.keywordsEn.GetOr([]))
      + [PageBreak]
  }

  function PlaceholderHead(estimated: int): string {
    "[Bu bölüm yazılacak. Tahmini: " + IntToString(estimated) + " kelime]\n\n"
  }

  function PointLine(point: string): string {
    "- " + point + "\n"
  }

  /** One "- point" line per key point, in order. */
  function PointLines(points: seq<string>): string {
    if points == [] then "" else PointLines(points[..|points| - 1]) + PointLine(points[|points| - 1])
  }

  /** The text written in place of a section's missing content. */
  function PlaceholderText(estimated: int, points: seq<string>, required: int): string {
    PlaceholderOpening(estimated) + PointLines(points) + PlaceholderClosing(required)
  }

  /** The section's paragraph: its content, or the placeholder when that is missing or empty. */
  function SectionContent(s: Section): (text: string)
    ensures text != ""
    ensures s.content.GetOr("") != "" ==> text == s.content.value
  {
    var content := s.content.GetOr("");
    if content == "" then
      PlaceholderText(s.estimatedWords.GetOr(DefaultWords), s.keyPoints.GetOr([]), s.requiredCitations.GetOr(DefaultCitations))
    else content
  }

  function SubsectionBlocks(sub: Subsection): seq<Block> {
    match sub
    case SubText(t) => [Heading(t, 2), Para(SubsectionPlaceholder)]
    case SubObject(title, content) => [Heading(title.GetOr(""), 2), Para(content.GetOr(ContentPlaceholder))]
    case SubOther => []
  }

  function SubsectionsBlocks(subs: seq<Subsection>): seq<Block> {
    if subs == [] then []
    else SubsectionsBlocks(subs[..|subs| - 1]) + SubsectionBlocks(subs[|subs| - 1])
  }

  function SectionBlocks(s: Section): seq<Block> {
    [Heading(s.title.GetOr(""), 1), Para(SectionContent(s))] + SubsectionsBlocks(s.subsections.GetOr([]))
  }

  function SectionsBlocks(sections: seq<Section>): seq<Block> {
    if sections == [] then []
    else SectionsBlocks(sections[..|sections| - 1]) + SectionBlocks(sections[|sections| - 1])
  }

  function ReferenceBlocks(r: Reference): seq<Block> {
    match r
    case RefText(t) => [Para(t)]
    case RefObject(apa, citation) => [Para(apa.GetOr(citation.GetOr("")))]
    case RefOther => []
  }

  function ReferenceList(refs: seq<Reference>): seq<Block> {
    if refs == [] then []
    else ReferenceList(refs[..|refs| - 1]) + ReferenceBlocks(refs[|refs| - 1])
  }

  function ReferencesPart(refs: seq<Reference>): seq<Block> {
    [PageBreak, Heading(ReferencesHeading, 1)] + (if refs == [] then [Para(NoReferences)] else ReferenceList(refs))
  }

  lemma AppendAssoc<T>(a: seq<T>, b: seq<T>, c: seq<T>)
    ensures a + (b + c) == a + b + c
  {
  }

  lemma SubsectionsSnoc(subs: seq<Subsection>, i: nat)
    requires i < |subs|
    ensures SubsectionsBlocks(subs[..i + 1]) == SubsectionsBlocks(subs[..i]) + SubsectionBlocks(subs[i])
  {
    assert subs[..i + 1][..i] == subs[..i];
  }

  lemma SectionsSnoc(sections: seq<Section>, i: nat)
    requires i < |sections|
    ensures SectionsBlocks(sections[..i + 1]) == SectionsBlocks(sections[..i]) + SectionBlocks(sections[i])
  {
    assert sections[..i + 1][..i] == sections[..i];
  }

  lemma ReferencesSnoc(refs: seq<Reference>, i: nat)
    requires i < |refs|
    ensures ReferenceList(refs[..i + 1]) == ReferenceList(refs[..i]) + ReferenceBlocks(refs[i])
  {
    assert refs[..i + 1][..i] == refs[..i];
  }

  /** Everything `build_from_outline` appends. */
  function OutlineBlocks(o: Outline): seq<Block> {
    FrontMatter(o) + SectionsBlocks(o.sections.GetOr([])) + ReferencesPart(o.references.GetOr([]))
  }

  // ---------------------------------------------------------------------
  // What the builder's output shows

  /** The heading a subsection entry contributes: strings and dictionaries one, anything else none. */
  function SubsectionTitle(sub: Subsection): seq<string> {
    match sub
    case SubText(t) => [t]
    case SubObject(title, _) => [title.GetOr("")]
    case SubOther => []
  }

  /** The paragraph a subsection entry contributes, with the two placeholders. */
  function SubsectionBody(sub: Subsection): seq<string> {
    match sub
    case SubText(_) => [SubsectionPlaceholder]
    case SubObject(_, content) => [content.GetOr(ContentPlaceholder)]
    case SubOther => []
  }

  function SubsectionTitles(subs: seq<Subsection>): seq<string> {
    if subs == [] then [] else SubsectionTitles(subs[..|subs| - 1]) + SubsectionTitle(subs[|subs| - 1])
  }

  function SubsectionBodies(subs: seq<Subsection>): seq<string> {
    if subs == [] then [] else SubsectionBodies(subs[..|subs| - 1]) + SubsectionBody(subs[|subs| - 1])
  }

  function SectionTitles(sections: seq<Section>): seq<string> {
    if sections == [] then [] else SectionTitles(sections[..|sections| - 1]) + [sections[|sections| - 1].title.GetOr("")]
  }

  /** The paragraph a reference contributes: a string verbatim, a dictionary's `apa_citation`, else its `citation`, else "". */
  function ReferenceText(r: Reference): seq<string> {
    match r
    case RefText(t) => [t]
    case RefObject(apa, citation) => [apa.GetOr(citation.GetOr(""))]
    case RefOther => []
  }

  function ReferenceTexts(refs: seq<Reference>): seq<string> {
    if refs == [] then [] else ReferenceTexts(refs[..|refs| - 1]) + ReferenceText(refs[|refs| - 1])
  }

  /** One subsection entry: a level-2 heading and a paragraph, or nothing at all. */
  lemma SubsectionShape(sub: Subsection, level: int)
    ensures Headings(SubsectionBlocks(sub), level) == if level == 2 then SubsectionTitle(sub) else []
    ensures ParagraphTexts(SubsectionBlocks(sub)) == SubsectionBody(sub)
    ensures Breaks(SubsectionBlocks(sub)) == 0
  {
    var bs := SubsectionBlocks(sub);
    if !sub.SubOther? {
      Views2(bs[0], bs[1], level);
      ParaText(SubsectionBody(sub)[0]);
    }
  }

  /** Subsections add only level-2 headings, one per string or dictionary entry, in order. */
  lemma {:induction false} SubsectionsHeadings(subs: seq<Subsection>, level: int)
    ensures Headings(SubsectionsBlocks(subs), level) == if level == 2 then SubsectionTitles(subs) else []
  {
    if subs != [] {
      var p := subs[..|subs| - 1];
      SubsectionsHeadings(p, level);
      HeadingsAppend(SubsectionsBlocks(p), SubsectionBlocks(subs[|subs| - 1]), level);
      SubsectionShape(subs[|subs| - 1], level);
    }
  }

  /** Each shown subsection is followed by its one paragraph; subsections hold no page break. */
  lemma {:induction false} SubsectionsBodies(subs: seq<Subsection>)
    ensures ParagraphTexts(SubsectionsBlocks(subs)) == SubsectionBodies(subs)
    ensures Breaks(SubsectionsBlocks(subs)) == 0
  {
    if subs != [] {
      var p := subs[..|subs| - 1];
      SubsectionsBodies(p);
      ParagraphTextsAppend(SubsectionsBlocks(p), SubsectionBlocks(subs[|subs| - 1]));
      BreaksAppend(SubsectionsBlocks(p), SubsectionBlocks(subs[|subs| - 1]));
      SubsectionShape(subs[|subs| - 1], 2);
    }
  }

  /**
    A section's headings: its title as the one level-1 heading, its
    subsections' titles at level 2.
  */
  lemma SectionHeadings(s: Section, level: int)
    ensures Headings(SectionBlocks(s), level) ==
      if level == 1 then [s.title.GetOr("")]
      else if level == 2 then SubsectionTitles(s.subsections.GetOr([]))
      else []
  {
    var subs := s.subsections.GetOr([]);
    var head := [Heading(s.title.GetOr(""), 1), Para(SectionContent(s))];
    SubsectionsHeadings(subs, level);
    HeadingsAppend(head, SubsectionsBlocks(subs), level);
    Views2(head[0], head[1], level);
  }

  /** A section's paragraphs: its content (or placeholder), then its subsections' bodies; no page break. */
  lemma SectionBodies(s: Section)
    ensures ParagraphTexts(SectionBlocks(s)) == [SectionContent(s)] + SubsectionBodies(s.subsections.GetOr([]))
    ensures Breaks(SectionBlocks(s)) == 0
  {
    var subs := s.subsections.GetOr([]);
    var head := [Heading(s.title.GetOr(""), 1), Para(SectionContent(s))];
    SubsectionsBodies(subs);
    ParagraphTextsAppend(head, SubsectionsBlocks(subs));
    BreaksAppend(head, SubsectionsBlocks(subs));
    Views2(head[0], head[1], 1);
    ParaText(SectionContent(s));
  }

  /** The sections' level-1 headings are their titles in outline order; they add no level-0 heading. */
  lemma {:induction false} SectionsHeadings(sections: seq<Section>, level: int)
    requires level == 0 || level == 1
    ensures Headings(SectionsBlocks(sections), level) == if level == 1 then SectionTitles(sections) else []
  {
    if sections != [] {
      var p := sections[..|sections| - 1];
      SectionsHeadings(p, level);
      HeadingsAppend(SectionsBlocks(p), SectionBlocks(sections[|sections| - 1]), level);
      SectionHeadings(sections[|sections| - 1], level);
    }
  }

  lemma {:induction false} SectionsBreaks(sections: seq<Section>)
    ensures Breaks(SectionsBlocks(sections)) == 0
  {
    if sections != [] {
      var p := sections[..|sections| - 1];
      SectionsBreaks(p);
      BreaksAppend(SectionsBlocks(p), SectionBlocks(sections[|sections| - 1]));
      SectionBodies(sections[|sections| - 1]);
    }
  }

  /** One reference entry: a paragraph, or nothing at all. */
  lemma ReferenceShape(r: Reference, level: int)
    ensures ParagraphTexts(ReferenceBlocks(r)) == ReferenceText(r)
    ensures Headings(ReferenceBlocks(r), level) == []
    ensures Breaks(ReferenceBlocks(r)) == 0
  {
    if !r.RefOther? {
      Views1(ReferenceBlocks(r)[0], level);
      ParaText(ReferenceText(r)[0]);
    }
  }

  /** One paragraph per string or dictionary reference, in order. */
  lemma {:induction false} ReferenceListParagraphs(refs: seq<Reference>)
    ensures ParagraphTexts(ReferenceList(refs)) == ReferenceTexts(refs)
  {
    if refs != [] {
      var p := refs[..|refs| - 1];
      ReferenceListParagraphs(p);
      ParagraphTextsAppend(ReferenceList(p), ReferenceBlocks(refs[|refs| - 1]));
      ReferenceShape(refs[|refs| - 1], 0);
    }
  }

  /** The reference list holds no heading and no page break. */
  lemma {:induction false} ReferenceListPlain(refs: seq<Reference>, level: int)
    ensures Headings(ReferenceList(refs), level) == []
    ensures Breaks(ReferenceList(refs)) == 0
  {
    if refs != [] {
      var p := refs[..|refs| - 1];
      ReferenceListPlain(p, level);
      HeadingsAppend(ReferenceList(p), ReferenceBlocks(refs[|refs| - 1]), level);
      BreaksAppend(ReferenceList(p), ReferenceBlocks(refs[|refs| - 1]));
      ReferenceShape(refs[|refs| - 1], level);
    }
  }

  /**
    The references part: a page break and the level-1 "Kaynakça" heading,
    then one paragraph per string or dictionary reference in order, or the
    single placeholder paragraph when the list is empty.
  */
  lemma ReferencesParagraphs(refs: seq<Reference>)
    ensures ParagraphTexts(ReferencesPart(refs)) == if refs == [] then [NoReferences] else ReferenceTexts(refs)
  {
    var head := [PageBreak, Heading(ReferencesHeading, 1)];
    var rest := if refs == [] then [Para(NoReferences)] else ReferenceList(refs);
    ParagraphTextsAppend(head, rest);
    Views2(head[0], head[1], 1);
    if refs == [] {
      ParaText(NoReferences);
      assert [Para(NoReferences)][1..] == [];
    } else {
      ReferenceListParagraphs(refs);
    }
  }

  lemma ReferencesHeadings(refs: seq<Reference>, level: int)
    ensures ReferencesPart(refs)[..2] == [PageBreak, Heading(ReferencesHeading, 1)]
    ensures Headings(ReferencesPart(refs), level) == if level == 1 then [ReferencesHeading] else []
    ensures Breaks(ReferencesPart(refs)) == 1
  {
    var head := [PageBreak, Heading(ReferencesHeading, 1)];
    var rest := if refs == [] then [Para(NoReferences)] else ReferenceList(refs);
    HeadingsAppend(head, rest, level);
    BreaksAppend(head, rest);
    Views2(head[0], head[1], level);
    if refs == [] {
      assert [Para(NoReferences)][1..] == [];
    } else {
      ReferenceListPlain(refs, level);
    }
  }

  lemma AbstractPartShape(heading: string, summary: string, caption: string, keywords: seq<string>, level: int)
    ensures Headings(AbstractPart(heading, summary, caption, keywords), level) == if level == 1 then [heading] else []
    ensures ParagraphTexts(AbstractPart(heading, summary, caption, keywords)) == [summary, caption + Join(", ", keywords)]
    ensures Breaks(AbstractPart(heading, summary, caption, keywords)) == 0
  {
    var bs := AbstractPart(heading, summary, caption, keywords);
    assert bs == [bs[0]] + [bs[1], bs[2]];
    HeadingsCons(bs[0], [bs[1], bs[2]], level);
    ParagraphTextsCons(bs[0], [bs[1], bs[2]]);
    BreaksCons(bs[0], [bs[1], bs[2]]);
    Views2(bs[1], bs[2], level);
    ParaText(summary);
    KeywordsText(caption, keywords);
  }

  /** The paragraph texts of the five parts of the front matter, put together. */
  lemma FiveParts(t: seq<Block>, tr: seq<Block>, gap: seq<Block>, en: seq<Block>, brk: seq<Block>)
    ensures ParagraphTexts(t + tr + gap + en + brk) ==
      ParagraphTexts(t) + ParagraphTexts(tr) + ParagraphTexts(gap) + ParagraphTexts(en) + ParagraphTexts(brk)
  {
    ParagraphTextsAppend(t + tr + gap + en, brk);
    ParagraphTextsAppend(t + tr + gap, en);
    ParagraphTextsAppend(t + tr, gap);
    ParagraphTextsAppend(t, tr);
  }

  /** Around an empty paragraph, between a title and a page break, only the two middle parts' paragraphs show. */
  lemma FrontParagraphs(t: seq<Block>, tr: seq<Block>, en: seq<Block>, a: seq<string>, b: seq<string>)
    requires ParagraphTexts(t) == [] && ParagraphTexts(tr) == a && ParagraphTexts(en) == b
    ensures ParagraphTexts(t + tr + [Para("")] + en + [PageBreak]) == a + [""] + b
  {
    FiveParts(t, tr, [Para("")], en, [PageBreak]);
    Views1(Para(""), 0);
    Views1(PageBreak, 0);
    ParaText("");
    assert [] + a + [""] + b + [] == a + [""] + b;
  }

  /** The front matter's paragraphs: the abstracts and keyword lines around one empty paragraph. */
  lemma FrontMatterParagraphs(o: Outline)
    ensures ParagraphTexts(FrontMatter(o)) ==
      [ o.abstractTr.GetOr(""), KeywordsTrLabel + Join(", ", o.keywordsTr.GetOr([])), "",
        o.abstractEn.GetOr(""), KeywordsEnLabel + Join(", ", o.keywordsEn.GetOr([])) ]
  {
    var t := [Heading(o.title.GetOr(DefaultTitle), 0)];
    var tr := AbstractPart(AbstractTrHeading, o.abstractTr.GetOr(""), KeywordsTrLabel, o.keywordsTr.GetOr([]));
    var en := AbstractPart(AbstractEnHeading, o.abstractEn.GetOr(""), KeywordsEnLabel, o.keywordsEn.GetOr([]));
    var a := [o.abstractTr.GetOr(""), KeywordsTrLabel + Join(", ", o.keywordsTr.GetOr([]))];
    var b := [o.abstractEn.GetOr(""), KeywordsEnLabel + Join(", ", o.keywordsEn.GetOr([]))];
    Views1(t[0], 0);
    AbstractPartShape(AbstractTrHeading, o.abstractTr.GetOr(""), KeywordsTrLabel, o.keywordsTr.GetOr([]), 0);
    AbstractPartShape(AbstractEnHeading, o.abstractEn.GetOr(""), KeywordsEnLabel, o.keywordsEn.GetOr([]), 0);
    FrontParagraphs(t, tr, en, a, b);
  }

  /** The title is the only level-0 heading and "Özet" and "Abstract" the level-1 ones. */
  lemma FrontMatterHeadings(o: Outline, level: int)
    ensures Headings(FrontMatter(o), level) ==
      if level == 0 then [o.title.GetOr(DefaultTitle)]
      else if level == 1 then [AbstractTrHeading, AbstractEnHeading]
      else []
  {
    var t := [Heading(o.title.GetOr(DefaultTitle), 0)];
    var tr := AbstractPart(AbstractTrHeading, o.abstractTr.GetOr(""), KeywordsTrLabel, o.keywordsTr.GetOr([]));
    var en := AbstractPart(AbstractEnHeading, o.abstractEn.GetOr(""), KeywordsEnLabel, o.keywordsEn.GetOr([]));
    HeadingsAppend(t + tr + [Para("")] + en, [PageBreak], level);
    HeadingsAppend(t + tr + [Para("")], en, level);
    HeadingsAppend(t + tr, [Para("")], level);
    HeadingsAppend(t, tr, level);
    Views1(t[0], level);
    Views1(Para(""), level);
    Views1(PageBreak, level);
    AbstractPartShape(AbstractTrHeading, o.abstractTr.GetOr(""), KeywordsTrLabel, o.keywordsTr.GetOr([]), level);
    AbstractPartShape(AbstractEnHeading, o.abstractEn.GetOr(""), KeywordsEnLabel, o.keywordsEn.GetOr([]), level);
  }

  /** An abstract part holds no page break. */
  lemma AbstractPartBreaks(heading: string, summary: string, caption: string, keywords: seq<string>)
    ensures Breaks(AbstractPart(heading, summary, caption, keywords)) == 0
  {
    var bs := AbstractPart(heading, summary, caption, keywords);
    assert bs == [bs[0]] + [bs[1], bs[2]];
    BreaksCons(bs[0], [bs[1], bs[2]]);
    Views2(bs[1], bs[2], 0);
  }

  /** Four parts without a page break, then one: one break in all. */
  lemma FrontBreaks(t: seq<Block>, tr: seq<Block>, gap: seq<Block>, en: seq<Block>)
    requires Breaks(t) == 0 && Breaks(tr) == 0 && Breaks(gap) == 0 && Breaks(en) == 0
    ensures Breaks(t + tr + gap + en + [PageBreak]) == 1
  {
    BreaksAppend(t + tr + gap + en, [PageBreak]);
    BreaksAppend(t + tr + gap, en);
    BreaksAppend(t + tr, gap);
    BreaksAppend(t, tr);
    Views1(PageBreak, 0);
  }

  /** The front matter ends with its one page break. */
  lemma FrontMatterBreaks(o: Outline)
    ensures Breaks(FrontMatter(o)) == 1
    ensures FrontMatter(o)[|FrontMatter(o)| - 1] == PageBreak
  {
    var t := [Heading(o.title.GetOr(DefaultTitle), 0)];
    var tr := AbstractPart(AbstractTrHeading, o.abstractTr.GetOr(""), KeywordsTrLabel, o.keywordsTr.GetOr([]));
    var en := AbstractPart(AbstractEnHeading, o.abstractEn.GetOr(""), KeywordsEnLabel, o.keywordsEn.GetOr([]));
    Views1(t[0], 0);
    Views1(Para(""), 0);
    AbstractPartBreaks(AbstractTrHeading, o.abstractTr.GetOr(""), KeywordsTrLabel, o.keywordsTr.GetOr([]));
    AbstractPartBreaks(AbstractEnHeading, o.abstractEn.GetOr(""), KeywordsEnLabel, o.keywordsEn.GetOr([]));
    FrontBreaks(t, tr, [Para("")], en);
  }

  /**
    The level-0 heading is the title alone; the level-1 headings are
    "Özet", "Abstract", the section titles in outline order, and
    "Kaynakça" last.
  */
  lemma OutlineHeadings(o: Outline, level: int)
    requires level == 0 || level == 1
    ensures Headings(OutlineBlocks(o), level) ==
      if level == 0 then [o.title.GetOr(DefaultTitle)]
      else [AbstractTrHeading, AbstractEnHeading] + SectionTitles(o.sections.GetOr([])) + [ReferencesHeading]
  {
    var sections := SectionsBlocks(o.sections.GetOr([]));
    var refs := ReferencesPart(o.references.GetOr([]));
    HeadingsAppend(FrontMatter(o) + sections, refs, level);
    HeadingsAppend(FrontMatter(o), sections, level);
    FrontMatterHeadings(o, level);
    SectionsHeadings(o.sections.GetOr([]), level);
    ReferencesHeadings(o.references.GetOr([]), level);
  }

  /**
    The document has exactly two page breaks: one closes the front matter
    and the other opens the references part, after the last section.
  */
  lemma OutlineBreaks(o: Outline)
    ensures Breaks(OutlineBlocks(o)) == 2
    ensures var n := |FrontMatter(o)|;
      OutlineBlocks(o)[n - 1] == PageBreak &&
      OutlineBlocks(o)[n + |SectionsBlocks(o.sections.GetOr([]))|] == PageBreak
  {
    var sections := SectionsBlocks(o.sections.GetOr([]));
    var refs := ReferencesPart(o.references.GetOr([]));
    BreaksAppend(FrontMatter(o) + sections, refs);
    BreaksAppend(FrontMatter(o), sections);
    FrontMatterBreaks(o);
    SectionsBreaks(o.sections.GetOr([]));
    ReferencesHeadings(o.references.GetOr([]), 1);
    assert refs[0] == PageBreak;
  }

  // ---------------------------------------------------------------------
  // The placeholder text

  /** The lines of the first `j` key points start the lines of all of them. */
  lemma {:induction false} PointLinesPrefix(points: seq<string>, j: nat)
    requires j <= |points|
    ensures IsPrefix(PointLines(points[..j]), PointLines(points))
  {
    if j < |points| {
      var n := |points| - 1;
      assert points[..n][..j] == points[..j];
      PointLinesPrefix(points[..n], j);
      var a := PointLines(points[..n]);
      assert PointLines(points) == a + PointLine(points[n]);
      assert (a + PointLine(points[n]))[..|a|] == a;
    } else {
      assert points[..j] == points;
    }
  }

  /** The placeholder's fixed opening, with the estimated length. */
  function PlaceholderOpening(estimated: int): string {
    PlaceholderHead(estimated) + PointsLabel
  }

  /** The placeholder's closing line, with the required citation count. */
  function PlaceholderClosing(required: int): string {
    CitationsLabel + IntToString(required)
  }

  /**
    The placeholder opens with the estimated length, lists every key
    point on its own "- " line, point `k` right after the lines of the
    points before it, and closes with the required citation count.
  */
  lemma PlaceholderShows(estimated: int, points: seq<string>, required: int, k: nat)
    requires k < |points|
    ensures IsPrefix(PlaceholderOpening(estimated), PlaceholderText(estimated, points, required))
    ensures OccursAt(PlaceholderText(estimated, points, required), PointLine(points[k]),
      |PlaceholderOpening(estimated)| + |PointLines(points[..k])|)
    ensures IsSuffix(PlaceholderClosing(required), PlaceholderText(estimated, points, required))
  {
    var head := PlaceholderOpening(estimated);
    var tail := PlaceholderClosing(required);
    var lines := PointLines(points);
    PointLinesPrefix(points, k + 1);
    assert points[..k + 1][..k] == points[..k];
    assert PointLines(points[..k + 1]) == PointLines(points[..k]) + PointLine(points[k]);
    ThreeParts(head, lines, tail, PointLines(points[..k]), PointLine(points[k]));
  }

  /** `_add_section`'s placeholder, built line by line. */
  method PlaceholderContent(estimated: int, keyPoints: seq<string>, required: int) returns (content: string)
    ensures content == PlaceholderText(estimated, keyPoints, required)
  {
    content := PlaceholderHead(estimated);
    content := content + PointsLabel;
    ghost var head := PlaceholderOpening(estimated);
    for i := 0 to |keyPoints|
      invariant content == head + PointLines(keyPoints[..i])
    {
      PointLinesStep(keyPoints, i);
      AppendAssoc(head, PointLines(keyPoints[..i]), PointLine(keyPoints[i]));
      content := content + PointLine(keyPoints[i]);
    }
    assert keyPoints[..|keyPoints|] == keyPoints;
    ghost var lines := content;
    content := content + CitationsLabel;
    content := content + IntToString(required);
    AppendAssoc(lines, CitationsLabel, IntToString(required));
  }

  lemma PointLinesStep(points: seq<string>, i: nat)
    requires i < |points|
    ensures PointLines(points[..i + 1]) == PointLines(points[..i]) + PointLine(points[i])
  {
    assert points[..i + 1][..i] == points[..i];
  }

  // ---------------------------------------------------------------------
  // The builder

  /** The builder owns the document; its methods only ever append blocks to it. */
  class DocxBuilder {
    var doc: seq<Block>

    /** A fresh, empty document (styles are not modelled). */
    constructor()
      ensures doc == []
    {
      doc := [];
    }

    method AddHeading(text: string, level: int)
      modifies this
      ensures doc == old(doc) + [Heading(text, level)]
    {
      doc := doc + [Heading(text, level)];
    }

    method AddParagraph(text: string)
      modifies this
      ensures doc == old(doc) + [Para(text)]
    {
      doc := doc + [Para(text)];
    }

    /** `p.add_run(text)` on the paragraph just added. */
    method AddRun(run: Run)
      requires doc != [] && doc[|doc| - 1].Paragraph?
      modifies this
      ensures doc == old(doc[..|doc| - 1]) + [Paragraph(old(doc[|doc| - 1].runs) + [run])]
    {
      doc := doc[..|doc| - 1] + [Paragraph(doc[|doc| - 1].runs + [run])];
    }

    method AddPageBreak()
      modifies this
      ensures doc == old(doc) + [PageBreak]
    {
      doc := doc + [PageBreak];
    }

    /** A keyword line: an empty paragraph given a bold caption run and an italic run. */
    method AddKeywords(caption: string, keywords: seq<string>)
      modifies this
      ensures doc == old(doc) + [KeywordsPara(caption, keywords)]
    {
      var joined := Join(", ", keywords);
      ghost var d0 := doc;
      AddParagraph("");
      assert doc[..|doc| - 1] == d0 && doc[|doc| - 1].runs == [];
      AddRun(Run(caption, true, false));
      assert doc[..|doc| - 1] == d0 && doc[|doc| - 1].runs == [Run(caption, true, false)];
      AddRun(Run(joined, false, true));
      assert [Run(caption, true, false)] + [Run(joined, false, true)] == [Run(caption, true, false), Run(joined, false, true)];
    }

    method BuildFromOutline(outline: Outline) returns (d: seq<Block>)
      modifies this
      ensures doc == old(doc) + OutlineBlocks(outline)
      ensures d == doc
    {
      ghost var d0 := doc;
      AddFrontMatter(outline);
      AddSections(outline.sections.GetOr([]));
      AddReferences(outline.references.GetOr([]));
      ghost var front, body, back := FrontMatter(outline), SectionsBlocks(outline.sections.GetOr([])), ReferencesPart(outline.references.GetOr([]));
      AppendAssoc(d0, front, body);
      AppendAssoc(d0, front + body, back);
      d := doc;
    }

    /** The title, the Turkish and English abstracts, and the page break before the sections. */
    method AddFrontMatter(outline: Outline)
      modifies this
      ensures doc == old(doc) + FrontMatter(outline)
    {
      AddHeading(outline.title.GetOr(DefaultTitle), 0);
      ghost var d1 := doc;
      AddHeading(AbstractTrHeading, 1);
      AddParagraph(outline.abstractTr.GetOr(""));
      AddKeywords(KeywordsTrLabel, outline.keywordsTr.GetOr([]));
      assert doc == d1 + AbstractPart(AbstractTrHeading, outline.abstractTr.GetOr(""), KeywordsTrLabel, outline.keywordsTr.GetOr([]));
      AddParagraph("");
      ghost var d2 := doc;
      AddHeading(AbstractEnHeading, 1);
      AddParagraph(outline.abstractEn.GetOr(""));
      AddKeywords(KeywordsEnLabel, outline.keywordsEn.GetOr([]));
      assert doc == d2 + AbstractPart(AbstractEnHeading, outline.abstractEn.GetOr(""), KeywordsEnLabel, outline.keywordsEn.GetOr([]));
      AddPageBreak();
    }

    /** The loop over `sections`. */
    method AddSections(sections: seq<Section>)
      modifies this
      ensures doc == old(doc) + SectionsBlocks(sections)
    {
      for i := 0 to |sections|
        invariant doc == old(doc) + SectionsBlocks(sections[..i])
      {
        SectionsSnoc(sections, i);
        AppendAssoc(old(doc), SectionsBlocks(sections[..i]), SectionBlocks(sections[i]));
        AddSection(sections[i]);
      }
      assert sections[..|sections|] == sections;
    }

    method AddSection(section: Section)
      modifies this
      ensures doc == old(doc) + SectionBlocks(section)
    {
      AddHeading(section.title.GetOr(""), 1);
      var content := section.content.GetOr("");
      if content == "" {
        content := PlaceholderContent(section.estimatedWords.GetOr(DefaultWords), section.keyPoints.GetOr([]),
          section.requiredCitations.GetOr(DefaultCitations));
      }
      assert content == SectionContent(section);
      AddParagraph(content);
      ghost var head := [Heading(section.title.GetOr(""), 1), Para(content)];
      assert doc == old(doc) + head;
      AddSubsections(section.subsections.GetOr([]));
      AppendAssoc(old(doc), head, SubsectionsBlocks(section.subsections.GetOr([])));
    }

    /** The loop over `subsections`. */
    method AddSubsections(subsections: seq<Subsection>)
      modifies this
      ensures doc == old(doc) + SubsectionsBlocks(subsections)
    {
      for i := 0 to |subsections|
        invariant doc == old(doc) + SubsectionsBlocks(subsections[..i])
      {
        SubsectionsSnoc(subsections, i);
        AddSubsection(subsections[i]);
      }
      assert subsections[..|subsections|] == subsections;
    }

    /** One entry of `subsections`, dispatched on its type. */
    method AddSubsection(subsection: Subsection)
      modifies this
      ensures doc == old(doc) + SubsectionBlocks(subsection)
    {
      match subsection
      case SubText(t) =>
        AddHeading(t, 2);
        AddParagraph(SubsectionPlaceholder);
      case SubObject(title, c) =>
        AddHeading(title.GetOr(""), 2);
        AddParagraph(c.GetOr(ContentPlaceholder));
      case SubOther =>
    }

    method AddReferences(references: seq<Reference>)
      modifies this
      ensures doc == old(doc) + ReferencesPart(references)
    {
      ghost var before := doc;
      var head := [PageBreak, Heading(ReferencesHeading, 1)];
      AddPageBreak();
      AddHeading(ReferencesHeading, 1);
      assert doc == before + head;
      if references == [] {
        AddParagraph(NoReferences);
        AppendAssoc(before, head, [Para(NoReferences)]);
        return;
      }
      for i := 0 to |references|
        invariant doc == before + head + ReferenceList(references[..i])
      {
        ghost var prev := doc;
        match references[i] {
          case RefText(t) =>
            AddParagraph(t);
          case RefObject(apa, citation) =>
            AddParagraph(apa.GetOr(citation.GetOr("")));
          case RefOther =>
        }
        assert doc == prev + ReferenceBlocks(references[i]);
        ReferencesSnoc(references, i);
        AppendAssoc(before + head, ReferenceList(references[..i]), ReferenceBlocks(references[i]));
      }
      assert references[..|references|] == references;
      AppendAssoc(before, head, ReferenceList(references));
    }
  }
}
