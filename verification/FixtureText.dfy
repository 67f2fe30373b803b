/** Normalising generated TypeScript before it is compared with the vendored
    file (`normalize_generated_text` in
    code-rs/app-server-protocol/src/schema_fixtures.rs). */
module FixtureText {
  import opened Lines

  predicate IsBlank(c: char) {
    c == ' ' || c == '\t'
  }

  function TrimBlanks(s: string): (r: string)
    ensures |r| <= |s| && r == s[..|r|]
    ensures forall i | |r| <= i < |s| :: IsBlank(s[i])
    ensures r != "" ==> !IsBlank(r[|r| - 1])
  {
    if s != "" && IsBlank(s[|s| - 1]) then TrimBlanks(s[..|s| - 1]) else s
  }

  predicate IsTerminated(segment: string) {
    segment != "" && segment[|segment| - 1] == '\n'
  }

  /** The lines the comparison looks at, without trailing blanks.  A blank rest
      after the last line feed does not count as a line. */
  function KeptLines(segments: seq<string>): seq<string> {
    if segments == [] then []
    else if |segments| == 1 && !IsTerminated(segments[0]) && TrimBlanks(segments[0]) == "" then []
    else [TrimBlanks(Chomp(segments[0]))] + KeptLines(segments[1..])
  }

  /** A text without lines reads as one empty line. */
  function TrimmedLines(content: string): (lines: seq<string>)
    ensures lines != []
  {
    var kept := KeptLines(Segments(content));
    if kept == [] then [""] else kept
  }

  function RenderOne(segment: string): string {
    TrimBlanks(Chomp(segment)) + if IsTerminated(segment) then "\n" else ""
  }

  function Render(segments: seq<string>): string {
    if segments == [] then "" else RenderOne(segments[0]) + Render(segments[1..])
  }

  lemma {:induction false} RenderAppend(segments: seq<string>, segment: string)
    ensures Render(segments + [segment]) == Render(segments) + RenderOne(segment)
  {
    hide RenderOne;
    if segments != [] {
      RenderAppend(segments[1..], segment);
      assert (segments + [segment])[1..] == segments[1..] + [segment];
    }
  }

  lemma Append(x: string, y: string, z: string)
    ensures (x + y) + z == x + (y + z)
  {
  }

  lemma RenderNext(segments: seq<string>, i: nat)
    requires i < |segments|
    ensures Render(segments[..i + 1]) ==
            if IsTerminated(segments[i])
            then (Render(segments[..i]) + TrimBlanks(segments[i][..|segments[i]| - 1])) + "\n"
            else Render(segments[..i]) + TrimBlanks(segments[i])
  {
    hide Render, TrimBlanks;
    RenderAppend(segments[..i], segments[i]);
    assert segments[..i] + [segments[i]] == segments[..i + 1];
    Append(Render(segments[..i]), TrimBlanks(Chomp(segments[i])), "\n");
  }

  method NormalizeGeneratedText(content: string) returns (normalized: string)
    ensures normalized == Unlines(TrimmedLines(content))
  {
    hide Segments, TrimmedLines, KeptLines, Unlines, Render, TrimBlanks, EndWithNewline;
    normalized := "";
    var segments := Segments(content);
    NothingRendered(segments);
    var i := 0;
    while i < |segments|
      invariant i <= |segments|
      invariant normalized == Render(segments[..i])
    {
      var segment := segments[i];
      RenderNext(segments, i);
      if segment != "" && segment[|segment| - 1] == '\n' {
        var line := segment[..|segment| - 1];
        normalized := normalized + TrimBlanks(line);
        normalized := normalized + "\n";
      } else {
        normalized := normalized + TrimBlanks(segment);
      }
      i := i + 1;
    }
    AllRendered(content, segments, i);
    if normalized == "" || normalized[|normalized| - 1] != '\n' {
      normalized := normalized + "\n";
    }
  }

  lemma NothingRendered(segments: seq<string>)
    ensures Render(segments[..0]) == ""
  {
  }

  lemma AllRendered(content: string, segments: seq<string>, i: nat)
    requires segments == Segments(content) && i == |segments|
    ensures var s := Render(segments[..i]);
            Unlines(TrimmedLines(content)) == if s == "" || s[|s| - 1] != '\n' then s + "\n" else s
  {
    hide Segments, TrimmedLines, Unlines, Render;
    RenderedLines(content);
    assert segments[..i] == segments;
  }

  function EndWithNewline(s: string): string {
    if s == "" || s[|s| - 1] != '\n' then s + "\n" else s
  }

  lemma UnlinesOfOne(line: string)
    ensures Unlines([line]) == line + "\n"
  {
  }

  /** A terminated segment in front. */
  lemma KeptCons(line: string, rest: seq<string>)
    ensures KeptLines([line + "\n"] + rest) == [TrimBlanks(line)] + KeptLines(rest)
    ensures Render([line + "\n"] + rest) == (TrimBlanks(line) + "\n") + Render(rest)
  {
  }

  /** The rest after the last line feed. */
  lemma LastLine(segment: string)
    requires IsLine(segment) && segment != ""
    ensures Render([segment]) == TrimBlanks(segment)
    ensures KeptLines([segment]) == if TrimBlanks(segment) == "" then [] else [TrimBlanks(segment)]
  {
  }

  /** One more line in front. */
  lemma RenderedLine(line: string, kept: seq<string>, r: string)
    requires EndWithNewline(r) == Unlines(if kept == [] then [""] else kept)
    requires r == "" <==> kept == []
    ensures EndWithNewline((line + "\n") + r) == Unlines([line] + kept)
  {
  }

  /** The text rendered so far is right up to its final line feed. */
  lemma RenderedLines(content: string)
    ensures var segments := Segments(content);
            && EndWithNewline(Render(segments)) == Unlines(TrimmedLines(content))
            && (Render(segments) == "" <==> KeptLines(segments) == [])
    decreases |content|
  {
    hide Segments, KeptLines, Render, Unlines, TrimBlanks, EndWithNewline;
    var n := FirstNewline(content);
    if content == "" {
      NoContent();
    } else if n == |content| {
      NoNewline(content);
      SegmentsOfRest(content);
      LastLine(content);
      var line := TrimBlanks(content);
      EndsOfLine(line, content);
      UnlinesOfOne("");
      UnlinesOfOne(line);
    } else {
      FirstLineOf(content);
      var line, rest := content[..n], Segments(content[n + 1..]);
      RenderedLines(content[n + 1..]);
      KeptCons(line, rest);
      RenderedLine(TrimBlanks(line), KeptLines(rest), Render(rest));
    }
  }

  lemma NoContent()
    ensures EndWithNewline(Render(Segments(""))) == Unlines(TrimmedLines(""))
    ensures Render(Segments("")) == "" && KeptLines(Segments("")) == []
  {
  }

  lemma EndsOfLine(line: string, content: string)
    requires IsLine(content) && line == TrimBlanks(content)
    ensures EndWithNewline(line) == line + "\n"
  {
  }

  // ------------------------------------------------------------ what it means

  ghost predicate AreTrimmed(lines: seq<string>) {
    forall l | l in lines :: IsLine(l) && TrimBlanks(l) == l
  }

  lemma {:induction false} KeptLinesAreTrimmed(content: string)
    ensures AreTrimmed(KeptLines(Segments(content)))
    decreases |content|
  {
    hide KeptLines, TrimBlanks, Segments, Render, IsLine;
    var n := FirstNewline(content);
    if content == "" {
      NoContent();
    } else if n == |content| {
      NoNewline(content);
      SegmentsOfRest(content);
      LastLine(content);
      TrimIsLine(content);
    } else {
      FirstLineOf(content);
      KeptLinesAreTrimmed(content[n + 1..]);
      KeptCons(content[..n], Segments(content[n + 1..]));
      TrimIsLine(content[..n]);
    }
  }

  lemma TrimIsLine(s: string)
    requires IsLine(s)
    ensures IsLine(TrimBlanks(s)) && TrimBlanks(TrimBlanks(s)) == TrimBlanks(s)
  {
  }

  lemma {:induction false} LinesOfUnlines(lines: seq<string>)
    requires AreTrimmed(lines)
    ensures KeptLines(Segments(Unlines(lines))) == lines
  {
    hide KeptLines, TrimBlanks, Segments, Render, Unlines, IsLine;
    if lines == [] {
      UnlinesEmpty();
      NoContent();
    } else {
      var line, rest := lines[0], lines[1..];
      assert lines == [line] + rest;
      LinesOfUnlines(rest);
      UnlinesCons(line, rest);
      SegmentsOfLine(line, Unlines(rest));
      KeptCons(line, Segments(Unlines(rest)));
    }
  }

  /** Normalising again changes nothing. */
  lemma NormalizingIsIdempotent(content: string)
    ensures TrimmedLines(Unlines(TrimmedLines(content))) == TrimmedLines(content)
  {
    KeptLinesAreTrimmed(content);
    LinesOfUnlines(TrimmedLines(content));
  }

  // ----------------------------------------------------- what a text consists of

  predicate AreBlanks(s: string) {
    forall i | 0 <= i < |s| :: s[i] == ' ' || s[i] == '\t'
  }

  /** One line, without blanks at its end. */
  predicate IsBareLine(s: string) {
    '\n' !in s && (s != "" ==> s[|s| - 1] != ' ' && s[|s| - 1] != '\t')
  }

  /** The text is these lines with blanks and a line feed behind each; the last
      may lack the line feed, and blanks may be left over. */
  ghost predicate HasLines(content: string, lines: seq<string>)
    decreases |lines|
  {
    if lines == [] then AreBlanks(content)
    else
      && IsBareLine(lines[0])
      && exists blanks :: AreBlanks(blanks) && IsFirstLine(content, lines[0] + blanks, lines)
  }

  ghost predicate IsFirstLine(content: string, first: string, lines: seq<string>)
    requires lines != []
    decreases |lines|, 0
  {
    || (content == first && lines[0] != "" && |lines| == 1)
    || exists rest :: content == first + ("\n" + rest) && HasLines(rest, lines[1..])
  }

  lemma {:induction false} BlanksTrimmedOff(line: string, blanks: string)
    requires AreBlanks(blanks) && (line != "" ==> !IsBlank(line[|line| - 1]))
    ensures TrimBlanks(line + blanks) == line
    decreases |blanks|
  {
    if blanks == "" {
      assert line + blanks == line;
    } else {
      var n := |blanks| - 1;
      BlanksTrimmedOff(line, blanks[..n]);
      assert (line + blanks)[..|line| + n] == line + blanks[..n];
    }
  }

  lemma TrimmedParts(s: string) returns (blanks: string)
    ensures AreBlanks(blanks) && s == TrimBlanks(s) + blanks
    ensures IsLine(s) ==> IsBareLine(TrimBlanks(s))
  {
    blanks := s[|TrimBlanks(s)|..];
  }

  lemma {:induction false} LinesAreKept(content: string, lines: seq<string>)
    requires HasLines(content, lines)
    ensures KeptLines(Segments(content)) == lines
    decreases |lines|
  {
    hide KeptLines, TrimBlanks, Segments, Render;
    if lines == [] {
      BlanksTrimmedOff("", content);
      assert "" + content == content && IsLine(content);
      if content == "" {
        NoContent();
      } else {
        SegmentsOfRest(content);
        LastLine(content);
      }
    } else {
      var blanks :| AreBlanks(blanks) && IsFirstLine(content, lines[0] + blanks, lines);
      var first := lines[0] + blanks;
      assert IsLine(first);
      BlanksTrimmedOff(lines[0], blanks);
      if content == first && lines[0] != "" && |lines| == 1 {
        SegmentsOfRest(content);
        LastLine(content);
        assert lines == [lines[0]];
      } else {
        var rest :| content == first + ("\n" + rest) && HasLines(rest, lines[1..]);
        LinesAreKept(rest, lines[1..]);
        SegmentsOfLine(first, rest);
        KeptCons(first, Segments(rest));
      }
    }
  }

  lemma LineInFront(line: string, blanks: string, rest: string, lines: seq<string>)
    requires IsBareLine(line) && AreBlanks(blanks) && HasLines(rest, lines)
    ensures HasLines((line + blanks) + ("\n" + rest), [line] + lines)
  {
    hide IsBareLine, AreBlanks;
    assert ([line] + lines)[1..] == lines;
    assert IsFirstLine((line + blanks) + ("\n" + rest), line + blanks, [line] + lines);
  }

  lemma OneLine(line: string, blanks: string)
    requires IsBareLine(line) && AreBlanks(blanks)
    ensures line != "" ==> HasLines(line + blanks, [line])
    ensures HasLines(blanks, [])
  {
    if line != "" {
      assert IsFirstLine(line + blanks, line + blanks, [line]);
    }
  }

  lemma {:induction false} KeptAreLines(content: string)
    ensures HasLines(content, KeptLines(Segments(content)))
    decreases |content|
  {
    hide KeptLines, TrimBlanks, Segments, Render, IsBareLine, AreBlanks, HasLines, IsLine;
    var n := FirstNewline(content);
    if content == "" {
      NoContent();
      BlanksOfNothing();
      OneLine("", "");
    } else if n == |content| {
      NoNewline(content);
      SegmentsOfRest(content);
      LastLine(content);
      var blanks := TrimmedParts(content);
      OneLine(TrimBlanks(content), blanks);
      assert TrimBlanks(content) == "" ==> "" + blanks == blanks;
    } else {
      FirstLineOf(content);
      var line, rest := content[..n], content[n + 1..];
      KeptAreLines(rest);
      KeptCons(line, Segments(rest));
      var blanks := TrimmedParts(line);
      LineInFront(TrimBlanks(line), blanks, rest, KeptLines(Segments(rest)));
    }
  }

  lemma BlanksOfNothing()
    ensures AreBlanks("") && IsBareLine("")
  {
  }

  /** The lines compared are those the text consists of; a blank text has one
      empty line. */
  lemma TrimmedLinesIff(content: string, lines: seq<string>)
    ensures TrimmedLines(content) == lines <==>
            (AreBlanks(content) && lines == [""]) || (lines != [] && HasLines(content, lines))
  {
    hide KeptLines, Segments, HasLines, AreBlanks;
    KeptAreLines(content);
    if HasLines(content, lines) {
      LinesAreKept(content, lines);
    }
    NoLines(content);
    if HasLines(content, []) {
      LinesAreKept(content, []);
    }
  }

  lemma NoLines(content: string)
    ensures HasLines(content, []) <==> AreBlanks(content)
  {
  }

  /** Two texts are normalised to the same text exactly when they have the
      same lines up to trailing blanks. */
  lemma SameTextIffSameLines(a: string, b: string)
    ensures Unlines(TrimmedLines(a)) == Unlines(TrimmedLines(b)) <==> TrimmedLines(a) == TrimmedLines(b)
  {
    NormalizingIsIdempotent(a);
    NormalizingIsIdempotent(b);
  }
}
