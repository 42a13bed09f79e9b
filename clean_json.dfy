/**
  The clean-up script's Markdown fence stripping: strip whitespace, drop
  an opening "```json" or "```", drop one closing "```", strip again.
*/
module CleanJson {
  import opened Strings

  const JsonFence: string := "```json"
  const Fence: string := "```"

  /** The opening fence that is dropped: "```json" takes precedence over "```". */
  function OpeningFence(s: string): (f: string)
    ensures IsPrefix(f, s)
    ensures f == JsonFence <==> IsPrefix(JsonFence, s)
    ensures f == Fence <==> IsPrefix(Fence, s) && !IsPrefix(JsonFence, s)
    ensures f == "" <==> !IsPrefix(Fence, s)
  {
    if IsPrefix(JsonFence, s) then JsonFence
    else if IsPrefix(Fence, s) then Fence
    else ""
  }

  /** The closing fence that is dropped: one "```", if the text ends with it. */
  function ClosingFence(s: string): (f: string)
    ensures IsSuffix(f, s)
    ensures f == Fence <==> IsSuffix(Fence, s)
    ensures f == "" <==> !IsSuffix(Fence, s)
  {
    if IsSuffix(Fence, s) then Fence else ""
  }

  /**
    The text between the fences: exactly the recognised opening fence and
    the recognised closing fence are dropped.
  */
  function Unfenced(s: string): (m: string)
    ensures var a := s[|OpeningFence(s)|..];
      m == a[..|a| - |ClosingFence(a)|]
  {
    var a := if IsPrefix(JsonFence, s) then s[7..] else if IsPrefix(Fence, s) then s[3..] else s;
    assert a == s[|OpeningFence(s)|..];
    if IsSuffix(Fence, a) then a[..|a| - 3] else a
  }

  /** The cleaned content; it never has whitespace at either end. */
  function Cleaned(text: string, isSpace: char -> bool): (r: string)
    ensures r == [] || (!isSpace(r[0]) && !isSpace(r[|r| - 1]))
  {
    var m := Unfenced(Strip(text, isSpace));
    Strip(m, isSpace)
  }

  /** The script's sequence of reassignments of `content`. */
  method CleanFences(text: string, isSpace: char -> bool) returns (content: string)
    ensures content == Cleaned(text, isSpace)
  {
    content := Strip(text, isSpace);
    ghost var s := content;
    if IsPrefix(JsonFence, content) {
      content := content[7..];
    } else if IsPrefix(Fence, content) {
      content := content[3..];
    }
    assert content == s[|OpeningFence(s)|..];
    ghost var a := content;
    if IsSuffix(Fence, content) {
      content := content[..|content| - 3];
    }
    assert content == a[..|a| - |ClosingFence(a)|];
    assert content == Unfenced(s);
    content := Strip(content, isSpace);
  }

  /**
    When a text splits as an opening fence, a middle and a closing fence
    that the script recognises, the middle is what is left.
  */
  lemma UnfencedParts(open: string, mid: string, close: string)
    requires OpeningFence(open + mid + close) == open
    requires ClosingFence(mid + close) == close
    ensures Unfenced(open + mid + close) == mid
  {
    var s := open + mid + close;
    assert s[|open|..] == mid + close;
    assert (mid + close)[..|mid|] == mid;
  }

  /** A text without a fence at either end comes back stripped and otherwise unchanged. */
  lemma NoFence(text: string, isSpace: char -> bool)
    requires !IsPrefix(Fence, Strip(text, isSpace)) && !IsSuffix(Fence, Strip(text, isSpace))
    ensures Cleaned(text, isSpace) == Strip(text, isSpace)
  {
    var s := Strip(text, isSpace);
    assert OpeningFence(s) == "" && ClosingFence(s) == "";
    assert Unfenced(s) == s by {
      assert s[0..] == s && s[..|s|] == s;
    }
    StripUnchanged(s, isSpace);
  }

  /** A body fenced as "```json … ```" comes back stripped: exactly seven characters go at the front. */
  lemma JsonFenced(body: string, isSpace: char -> bool)
    requires !isSpace('`')
    ensures Cleaned(JsonFence + body + Fence, isSpace) == Strip(body, isSpace)
  {
    var s := JsonFence + body + Fence;
    StripUnchanged(s, isSpace);
    assert s[..7] == JsonFence;
    assert (body + Fence)[|body|..] == Fence;
    UnfencedParts(JsonFence, body, Fence);
  }

  /** Behind a plain fence, a body not beginning with "json" does not make the text open with "```json". */
  lemma PlainOpening(body: string)
    requires !IsPrefix("json", body)
    ensures OpeningFence(Fence + body + Fence) == Fence
  {
    var s := Fence + body + Fence;
    assert s[..3] == Fence;
    if |body| >= 4 {
      assert s[3..7] == body[..4];
      assert body[..4] != "json";
    } else {
      assert |s| < 7 || s[3 + |body|] == '`';
    }
  }

  /** A body not beginning with "json", fenced as "``` … ```", comes back stripped. */
  lemma PlainFenced(body: string, isSpace: char -> bool)
    requires !isSpace('`') && !IsPrefix("json", body)
    ensures Cleaned(Fence + body + Fence, isSpace) == Strip(body, isSpace)
  {
    var s := Fence + body + Fence;
    StripUnchanged(s, isSpace);
    PlainOpening(body);
    assert (body + Fence)[|body|..] == Fence;
    UnfencedParts(Fence, body, Fence);
  }

  /** Stripping keeps a tail that holds no whitespace. */
  lemma StripKeepsEnd(y: string, z: string, isSpace: char -> bool)
    requires forall k :: 0 <= k < |z| ==> !isSpace(z[k])
    ensures IsSuffix(z, Strip(y + z, isSpace))
  {
    var x := y + z;
    if z != [] {
      var a := RunEnd(x, 0, isSpace, true);
      assert x[|y|] == z[0];
      assert a <= |y|;
      var r := Strip(x, isSpace);
      assert !isSpace(x[|x| - 1]) by { assert x[|x| - 1] == z[|z| - 1]; }
      assert a + |r| == |x|;
      assert r == x[a..];
      assert r[|r| - |z|..] == x[|y|..] == z;
    }
  }

  /** Only one closing fence is dropped: a doubled one leaves the result still ending in "```". */
  lemma ClosingOnce(body: string, isSpace: char -> bool)
    requires !isSpace('`')
    ensures Cleaned(JsonFence + body + Fence + Fence, isSpace) == Strip(body + Fence, isSpace)
    ensures IsSuffix(Fence, Cleaned(JsonFence + body + Fence + Fence, isSpace))
  {
    var s := JsonFence + body + Fence + Fence;
    assert s == JsonFence + (body + Fence) + Fence;
    StripUnchanged(s, isSpace);
    assert s[..7] == JsonFence;
    assert (body + Fence + Fence)[|body + Fence|..] == Fence;
    UnfencedParts(JsonFence, body + Fence, Fence);
    StripKeepsEnd(body, Fence, isSpace);
  }
}
