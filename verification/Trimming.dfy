/** What trimming does to a text, whatever white space is around it. */
module Trimming {
  import opened Text

  lemma TrimTwice(text: string)
    ensures Trim(Trim(text)) == Trim(text)
  {
  }

  /** How trimming takes a text apart. */
  lemma TrimSplits(text: string) returns (before: string, after: string)
    ensures text == before + Trim(text) + after && AllWhitespace(before) && AllWhitespace(after)
  {
    hide TrimStart, TrimEnd, AllWhitespace;
    var front := TrimEnd(text);
    var t := TrimStart(front);
    before, after := front[..|front| - |t|], text[|front|..];
    assert front == before + t;
    assert text == front + after;
  }

  lemma TrimmedEnds(part: string)
    requires part != "" && Trim(part) == part
    ensures !IsWhitespace(part[0]) && !IsWhitespace(part[|part| - 1])
  {
  }

  lemma WhitespaceTail(w: string)
    requires AllWhitespace(w) && w != ""
    ensures IsWhitespace(w[0]) && AllWhitespace(w[1..])
    ensures IsWhitespace(w[|w| - 1]) && AllWhitespace(w[..|w| - 1])
  {
    hide IsWhitespace;
  }

  lemma TrimEndStep(text: string, c: char)
    ensures IsWhitespace(c) ==> TrimEnd(text + [c]) == TrimEnd(text)
    ensures !IsWhitespace(c) ==> TrimEnd(text + [c]) == text + [c]
  {
    assert (text + [c])[..|text|] == text;
  }

  lemma TrimStartStep(c: char, text: string)
    ensures IsWhitespace(c) ==> TrimStart([c] + text) == TrimStart(text)
    ensures !IsWhitespace(c) ==> TrimStart([c] + text) == [c] + text
  {
    assert ([c] + text)[1..] == text;
  }

  lemma {:induction false} TrimEndPadded(text: string, after: string)
    requires AllWhitespace(after) && text != "" && !IsWhitespace(text[|text| - 1])
    ensures TrimEnd(text + after) == text
    decreases |after|
  {
    hide TrimEnd, AllWhitespace, IsWhitespace;
    if after == "" {
      var n := |text| - 1;
      assert text + after == text == text[..n] + [text[n]];
      TrimEndStep(text[..n], text[n]);
    } else {
      var n := |after| - 1;
      WhitespaceTail(after);
      TrimEndPadded(text, after[..n]);
      TrimEndStep(text + after[..n], after[n]);
      assert text + after == text + after[..n] + [after[n]];
    }
  }

  lemma {:induction false} TrimStartPadded(before: string, text: string)
    requires AllWhitespace(before) && text != "" && !IsWhitespace(text[0])
    ensures TrimStart(before + text) == text
    decreases |before|
  {
    hide TrimStart, AllWhitespace, IsWhitespace;
    if before == "" {
      assert before + text == text == [text[0]] + text[1..];
      TrimStartStep(text[0], text[1..]);
    } else {
      WhitespaceTail(before);
      TrimStartPadded(before[1..], text);
      TrimStartStep(before[0], before[1..] + text);
      assert before + text == [before[0]] + (before[1..] + text);
    }
  }

  /** White space around a part is trimmed off again. */
  lemma TrimPadded(before: string, part: string, after: string)
    requires AllWhitespace(before) && AllWhitespace(after) && part != "" && Trim(part) == part
    ensures Trim(before + part + after) == part
  {
    TrimmedEnds(part);
    TrimEndPadded(before + part, after);
    assert (before + part)[|before + part| - 1] == part[|part| - 1];
    TrimStartPadded(before, part);
  }

  lemma BlankIffTrimmedAway(text: string)
    ensures Trim(text) == "" <==> AllWhitespace(text)
  {
    var front, t := TrimEnd(text), Trim(text);
    if t != "" {
      assert t[0] == front[|front| - |t|] == text[|front| - |t|] && !IsWhitespace(t[0]);
    } else {
      assert text == front + text[|front|..];
      assert front[..|front|] == front;
    }
  }

  lemma TrimmedAlready(text: string)
    requires text != "" && !IsWhitespace(text[0]) && !IsWhitespace(text[|text| - 1])
    ensures Trim(text) == text
  {
  }
}
