/**
  The APA-7 validator's text checks: extracting in-text citations, the
  et al. check, and the check for visual captions.
*/
module CitationChecker {
  import opened Wrappers
  import opened Chars
  import opened Strings
  import opened Regex

  /** `[(author, year) for author, year, _ in re.findall(IN_TEXT_PATTERN, text)]` */
  function ExtractInTextCitations(text: string, rules: CharRules): (pairs: seq<(string, string)>)
    ensures var ms := FindAll(InTextCapture, text, rules);
      |pairs| == |ms| &&
      forall k :: 0 <= k < |pairs| ==>
        |ms[k].groups| == 3 && pairs[k] == (ms[k].groups[0], ms[k].groups[1])
  {
    CaptureGroupsPresent(text, rules);
    var ms := FindAll(InTextCapture, text, rules);
    seq(|ms|, k requires 0 <= k < |ms| => (ms[k].groups[0], ms[k].groups[1]))
  }

  /** Every match of the capturing pattern carries its three groups. */
  lemma CaptureGroupsPresent(text: string, rules: CharRules)
    ensures var ms := FindAll(InTextCapture, text, rules);
      forall k :: 0 <= k < |ms| ==> |ms[k].groups| == 3
  {
    var ms := FindAll(InTextCapture, text, rules);
    forall k | 0 <= k < |ms| ensures |ms[k].groups| == 3 {
      FindAllSound(InTextCapture, text, rules, k);
    }
  }

  /**
    Every extracted author is one name, or two joined by `ve`, `and` or `&`
    between blanks, and starts with an upper-case Turkish letter; every
    year is four digits; and each pair comes from a parenthesised citation
    of the text.
  */
  lemma CitationShape(text: string, rules: CharRules)
    ensures var pairs := ExtractInTextCitations(text, rules);
      var ms := FindAll(InTextCapture, text, rules);
      forall k :: 0 <= k < |pairs| ==>
        |pairs[k].0| >= 2 && IsUpperTr(pairs[k].0[0]) && AuthorShape(pairs[k].0, rules) &&
        |pairs[k].1| == 4 && (forall c :: 0 <= c < 4 ==> rules.isDigit(pairs[k].1[c])) &&
        text[ms[k].start] == '(' && text[ms[k].end - 1] == ')'
  {
    var pairs := ExtractInTextCitations(text, rules);
    var ms := FindAll(InTextCapture, text, rules);
    forall k | 0 <= k < |pairs|
      ensures |pairs[k].0| >= 2 && IsUpperTr(pairs[k].0[0]) && AuthorShape(pairs[k].0, rules)
      ensures |pairs[k].1| == 4 && (forall c :: 0 <= c < 4 ==> rules.isDigit(pairs[k].1[c]))
      ensures text[ms[k].start] == '(' && text[ms[k].end - 1] == ')'
    {
      FindAllSound(InTextCapture, text, rules, k);
      CaptureShape(text, ms[k], rules);
      var g := ms[k].groups;
      assert pairs[k] == (g[0], g[1]);
    }
  }

  /**
    `check_et_al_usage`: the et al. citations it finds only feed a debug
    log, so no issue is ever reported.
  */
  function CheckEtAlUsage(text: string): (issues: seq<string>)
    ensures issues == []
  {
    []
  }

  const NoCaptionIssue: string := "No visual captions found (expected: Görsel 1. ...)"

  /** `validate_visual_captions`: one issue exactly when no caption matches anywhere in the text. */
  function ValidateVisualCaptions(text: string, rules: CharRules): (issues: seq<string>)
    ensures issues == [] || issues == [NoCaptionIssue]
    ensures issues == [] <==> exists q :: 0 <= q < |text| && MatchCaption(text, q, rules).Some?
  {
    FindAllEmpty(Caption, text, rules);
    assert forall q :: 0 <= q < |text| ==> MatchAt(Caption, text, rules, q) == MatchCaption(text, q, rules);
    if |FindAll(Caption, text, rules)| < 1 then [NoCaptionIssue] else []
  }

  /** A caption `Görsel 1. P…` anywhere in the text satisfies the check. */
  lemma CaptionAccepted(a: string, b: string)
    ensures ValidateVisualCaptions(a + "Görsel 1. Picasso" + b, Basic) == []
  {
    var s := a + "Görsel 1. Picasso" + b;
    var i := |a|;
    assert s[i..i + 6] == "Görsel";
    assert s[i + 6] == ' ' && s[i + 7] == '1' && s[i + 8] == '.' && s[i + 9] == ' ' && s[i + 10] == 'P';
    assert RunEnd(s, i + 7, Basic.isSpace, true) == i + 7;
    assert RunEnd(s, i + 6, Basic.isSpace, true) == i + 7;
    assert RunEnd(s, i + 8, Basic.isDigit, true) == i + 8;
    assert RunEnd(s, i + 7, Basic.isDigit, true) == i + 8;
    assert RunEnd(s, i + 10, Basic.isSpace, true) == i + 10;
    assert RunEnd(s, i + 9, Basic.isSpace, true) == i + 10;
    assert MatchCaption(s, i, Basic).Some?;
  }

  /** A text without the word `Görsel` is reported. */
  lemma CaptionMissing(text: string, rules: CharRules)
    requires forall q :: 0 <= q <= |text| ==> !LitAt(text, q, "Görsel")
    ensures ValidateVisualCaptions(text, rules) == [NoCaptionIssue]
  {
  }
}
