/** The parser of code-rs/apply-patch/src/parser.rs accepts exactly what can be
    printed, and the error it gives otherwise is that of the first fault. */
module PatchGrammar {
  import opened Text
  import opened Trimming
  import opened Lines
  import opened PatchParser
  import opened PatchPrinter

  // ------------------------------------------------------------------- faults

  /** At line `n` a chunk should begin, the first of its update or a later one,
      and `e` says why none does.  A first chunk without `@@` line is reported
      one line further down than it stands. */
  ghost predicate IsChunkFault(rest: seq<string>, n: nat, first: bool, e: ParseError) {
    && rest != [] && !AllWhitespace(rest[0]) && !HasPrefix(rest[0], "***")
    && if rest[0] == "@@" || HasPrefix(rest[0], "@@ ") then
         if |rest| == 1 || rest[1] == "*** End of File" then e == InvalidHunk(NoLines, n + 1)
         else !IsPrintedDiff(rest[1]) && e == InvalidHunk(UnexpectedLine(rest[1]), n + 1)
       else if first then !IsPrintedDiff(rest[0]) && e == InvalidHunk(UnexpectedLine(rest[0]), n + 1)
       else e == InvalidHunk(MissingContext(rest[0]), n)
  }

  /** `rest` is not a part of the update printed before it. */
  ghost predicate IsBehind(h: HunkSource, rest: seq<string>)
    requires h.UpdateSource?
  {
    && Fit(h.items, true, false)
    && (IsOpen(h.items, false) && rest != [] ==> EndsDiff(rest[0]))
    && (h.movePath.None? && h.items == [] && rest != [] ==> !HasPrefix(rest[0], "*** Move to: "))
  }

  /** Behind the update printed so far, whose header is line `n`, there is a
      faulty chunk, or the update is over and holds no chunk. */
  ghost predicate IsUpdateFault(h: HunkSource, rest: seq<string>, n: nat, e: ParseError) {
    && h.UpdateSource? && IsBehind(h, rest)
    && var noneYet := ItemsMeaning(h.items) == [];
       || IsChunkFault(rest, n + |PrintHunk(h)|, noneYet, e)
       || (noneYet && (rest == [] || HasPrefix(rest[0], "***")) && e == InvalidHunk(EmptyUpdate(h.header.path), n))
  }

  predicate IsPadded(header: Header) {
    IsPath(header.path) && AllWhitespace(header.before) && AllWhitespace(header.after)
  }

  ghost predicate IsHeader(line: string) {
    exists h: HunkSource :: IsPadded(h.header) && line == PrintHeader(h)
  }

  /** At line `n` a hunk should begin, and `e` says why none does. */
  ghost predicate IsHunkFault(lines: seq<string>, n: nat, e: ParseError)
    requires lines != []
  {
    || (!IsHeader(lines[0]) && e == InvalidHunk(BadHeader(Trim(lines[0])), n))
    || exists h: HunkSource, rest: seq<string> ::
         IsPadded(h.header) && lines == PrintHunk(h) + rest && IsUpdateFault(h, rest, n, e)
  }

  // ------------------------------------------------------------ reading chunks

  lemma DiffLineRead(line: string) returns (d: DiffLine)
    requires IsDiffLine(line)
    ensures PrintDiffLine(d) == line
  {
    DiffLineIffPrinted(line);
    d :| PrintDiffLine(d) == line;
  }

  lemma {:induction false} DiffRead(lines: seq<string>) returns (diff: seq<DiffLine>)
    requires forall line | line in lines :: IsDiffLine(line)
    ensures PrintDiff(diff) == lines
  {
    hide IsDiffLine, PrintDiffLine;
    diff := [];
    if lines != [] {
      var d := DiffLineRead(lines[0]);
      var more := DiffRead(lines[1..]);
      diff := [d] + more;
      assert PrintDiff(diff) == [lines[0]] + PrintDiff(more);
    }
  }

  lemma BodyRead(context: Option<string>, lines: seq<string>, m: nat) returns (c: ChunkSource)
    requires ParseDiff(context, lines, m).Ok?
    ensures !c.bare && c.context == context && c.diff != []
    ensures var k := ParseDiff(context, lines, m).value.1;
            && k == |PrintBody(c)| && lines == PrintBody(c) + lines[k..]
            && (c.endOfFile || lines[k..] == [] || EndsDiff(lines[k]))
    ensures PrintDiffLine(c.diff[0]) == lines[0]
  {
    DiffTaken(context, lines, m);
    hide ParseDiff, DiffLength, OldLines, NewLines, IsDiffLine, PrintDiffLine, IsPrintedDiff;
    var n := DiffLength(lines);
    var atEof := n < |lines| && lines[n] == EOF_MARKER;
    var diff := DiffRead(lines[..n]);
    assert PrintDiff(diff)[0] == lines[0];
    c := ChunkSource(false, context, diff, atEof);
    assert lines == lines[..n] + lines[n..];
    if atEof {
      assert lines[n..] == [lines[n]] + lines[n + 1..];
    } else if n < |lines| {
      DiffLineIffPrinted(lines[n]);
    }
  }

  lemma ChunkRead(lines: seq<string>, m: nat, first: bool) returns (c: ChunkSource)
    requires lines != [] && !AllWhitespace(lines[0]) && ParseChunk(lines, m, first).Ok?
    ensures IsChunk(c, first)
    ensures var k := ParseChunk(lines, m, first).value.1;
            && k == |PrintChunk(c)| && lines == PrintChunk(c) + lines[k..]
            && (c.endOfFile || lines[k..] == [] || EndsDiff(lines[k]))
  {
    hide ParseDiff, ParseChunk, ContextOf, HasContextLine, EndsDiff, PrintBody, PrintDiffLine, AllWhitespace;
    ChunkFromFirstLine(lines, m, first);
    if HasContextLine(lines[0]) {
      c := BodyRead(ContextOf(lines[0]), lines[1..], m);
      ContextRead(lines[0]);
      BehindContext(lines, PrintBody(c));
    } else {
      var body := BodyRead(None, lines, m);
      c := body.(bare := true);
      BareBody(body);
    }
  }

  lemma BehindContext(lines: seq<string>, body: seq<string>)
    requires lines != [] && |body| < |lines| && lines[1..] == body + lines[1..][|body|..]
    ensures lines[1..][|body|..] == lines[|body| + 1..] && lines == [lines[0]] + body + lines[|body| + 1..]
  {
    assert lines == [lines[0]] + lines[1..];
  }

  lemma BareBody(c: ChunkSource)
    ensures PrintBody(c.(bare := true)) == PrintBody(c)
  {
  }

  lemma ContextRead(line: string)
    requires HasContextLine(line)
    ensures PrintContext(ContextOf(line)) == line
  {
  }

  lemma ContextLineIff(line: string)
    ensures HasContextLine(line) <==> line == "@@" || HasPrefix(line, "@@ ")
  {
  }

  lemma ChunkFaultIff(lines: seq<string>, n: nat, first: bool, e: ParseError)
    requires lines != [] && !AllWhitespace(lines[0]) && !HasPrefix(lines[0], "***")
    ensures ParseChunk(lines, n, first) == Err(e) <==> IsChunkFault(lines, n, first, e)
  {
    ChunkFromFirstLine(lines, n, first);
    hide ParseDiff, ParseChunk, ContextOf, HasContextLine, IsDiffLine, HasPrefix, AllWhitespace, IsPrintedDiff;
    ContextLineIff(lines[0]);
    if HasContextLine(lines[0]) {
      DiffFaultIff(ContextOf(lines[0]), lines[1..], n, e);
    } else if first {
      DiffFaultIff(None, lines, n, e);
      StarsEndDiff("*** End of File");
      EofIsStars();
    }
  }

  lemma EofIsStars()
    ensures HasPrefix("*** End of File", "***")
  {
  }

  lemma DiffFaultIff(context: Option<string>, lines: seq<string>, n: nat, e: ParseError)
    ensures ParseDiff(context, lines, n) == Err(e) <==>
              if lines == [] || lines[0] == "*** End of File" then e == InvalidHunk(NoLines, n + 1)
              else !IsPrintedDiff(lines[0]) && e == InvalidHunk(UnexpectedLine(lines[0]), n + 1)
  {
    DiffTaken(context, lines, n);
    EofMarkerFacts();
    FirstDecidesLength(lines);
    hide ParseDiff, DiffLength, OldLines, NewLines, IsDiffLine, IsPrintedDiff;
    if lines != [] {
      DiffLineIffPrinted(lines[0]);
    }
  }

  lemma FirstDecidesLength(lines: seq<string>)
    ensures DiffLength(lines) == 0 <==> lines == [] || !IsDiffLine(lines[0])
  {
  }

  // ------------------------------------------------------------- reading items

  /** All that can be read below an update header, and what stops it. */
  lemma {:induction false} ItemsRead(lines: seq<string>, m: nat, first: bool, open: bool)
      returns (items: seq<Item>, rest: seq<string>)
    requires open && lines != [] ==> EndsDiff(lines[0])
    ensures Fit(items, first, open) && lines == PrintItems(items) + rest
    ensures IsOpen(items, open) && rest != [] ==> EndsDiff(rest[0])
    ensures rest != [] ==> !AllWhitespace(rest[0])
    ensures rest == [] || HasPrefix(rest[0], "***") ||
            ParseChunk(rest, m + |PrintItems(items)|, first && ItemsMeaning(items) == []).Err?
    decreases |lines|
  {
    hide ParseChunk, EndsDiff, PrintChunk, AllWhitespace, HasPrefix, IsChunk, ChunkMeaning;
    hide PrintItem, Fit, ItemsMeaning, IsOpen;
    if lines == [] || HasPrefix(lines[0], "***") {
      items, rest := [], lines;
      NothingFits(first, open);
      NoItems(rest);
      if lines != [] {
        StarsAreNotBlank(lines[0]);
      }
    } else if AllWhitespace(lines[0]) {
      EndsNoDiff(lines[0]);
      var more, after := ItemsRead(lines[1..], m + 1, first, false);
      rest := after;
      items := ItemsCons(Blank(lines[0]), more, first, open);
      assert lines == [lines[0]] + (PrintItems(more) + rest);
    } else if ParseChunk(lines, m, first).Ok? {
      var c := ChunkRead(lines, m, first);
      var k := |PrintChunk(c)|;
      var more, after := ItemsRead(lines[k..], m + k, false, !c.endOfFile);
      rest := after;
      items := ItemsCons(Change(c), more, first, open);
      assert lines == PrintChunk(c) + (PrintItems(more) + rest);
    } else {
      items, rest := [], lines;
      NothingFits(first, open);
      NoItems(rest);
    }
  }

  lemma NothingFits(first: bool, open: bool)
    ensures Fit([], first, open) && IsOpen([], open) == open
  {
  }

  lemma StarsAreNotBlank(line: string)
    requires HasPrefix(line, "***")
    ensures !AllWhitespace(line)
  {
    StarsEndDiff(line);
    NotBlank(line);
  }

  lemma EndsNoDiff(line: string)
    ensures EndsDiff(line) ==> !IsPrintedDiff(line)
  {
  }

  lemma ItemsCons(item: Item, more: seq<Item>, first: bool, open: bool) returns (items: seq<Item>)
    requires item.Blank? ==> AllWhitespace(item.line) && (open ==> !IsPrintedDiff(item.line))
    requires item.Change? ==> IsChunk(item.chunk, first)
    requires Fit(more, first && item.Blank?, item.Change? && !item.chunk.endOfFile)
    ensures Fit(items, first, open)
    ensures IsOpen(items, open) == IsOpen(more, item.Change? && !item.chunk.endOfFile)
    ensures PrintItems(items) == (if item.Blank? then [item.line] else PrintChunk(item.chunk)) + PrintItems(more)
    ensures ItemsMeaning(items) == [] <==> item.Blank? && ItemsMeaning(more) == []
  {
    hide PrintChunk, ChunkMeaning, AllWhitespace, IsPrintedDiff, IsChunk;
    items := [item] + more;
    assert items[1..] == more;
  }

  // ------------------------------------------------------------- reading hunks

  lemma UpdateRead(header: Header, body: seq<string>, m: nat) returns (h: HunkSource, rest: seq<string>)
    ensures h.UpdateSource? && h.header == header && body == PrintRest(h) + rest && IsBehind(h, rest)
    ensures rest != [] ==> !AllWhitespace(rest[0])
    ensures rest == [] || HasPrefix(rest[0], "***") ||
            ParseChunk(rest, m + 1 + |PrintRest(h)|, ItemsMeaning(h.items) == []).Err?
  {
    hide ParseChunk, EndsDiff, AllWhitespace, PrintItems, ItemsMeaning, Fit, IsOpen;
    var movePath := if body == [] then None else StripPrefix(body[0], "*** Move to: ");
    var k := |PrintMove(movePath)|;
    var items;
    items, rest := ItemsRead(body[k..], m + 1 + k, true, false);
    h := UpdateSource(header, movePath, items);
    assert body == PrintMove(movePath) + body[k..] by {
      if movePath.Some? {
        assert body[0] == "*** Move to: " + movePath.value;
        assert body == [body[0]] + body[1..];
      }
    }
    assert PrintRest(h) == PrintMove(movePath) + PrintItems(items);
    if items == [] {
      NoItems(rest);
    }
  }

  lemma HeaderRead(line: string, kind: HunkSource) returns (header: Header)
    requires HasPrefix(Trim(line), MarkerOf(kind))
    ensures IsPadded(header) && line == header.before + (MarkerOf(kind) + header.path) + header.after
    ensures StripPrefix(Trim(line), MarkerOf(kind)) == Some(header.path)
  {
    hide Trim, MarkerOf, AllWhitespace, IsWhitespace;
    var marker, t := MarkerOf(kind), Trim(line);
    MarkerEnds(kind);
    TrimTwice(line);
    TrimmedEnds(t);
    PathBehind(marker, t);
    var before, after := TrimSplits(line);
    header := Header(before, t[|marker|..], after);
  }

  lemma PathBehind(marker: string, line: string)
    requires HasPrefix(line, marker) && marker != ""
    requires IsWhitespace(marker[|marker| - 1]) && !IsWhitespace(line[|line| - 1])
    ensures StripPrefix(line, marker) == Some(line[|marker|..]) && IsPath(line[|marker|..])
    ensures line == marker + line[|marker|..]
  {
    hide IsWhitespace;
    assert line == marker + line[|marker|..];
    assert line[|marker| - 1] == marker[|marker| - 1];
  }

  lemma MarkerEnds(kind: HunkSource)
    ensures var marker := MarkerOf(kind); marker != "" && IsWhitespace(marker[|marker| - 1])
  {
  }

  const ADDING := AddSource(Header("", "", ""), [])
  const DELETING := DeleteSource(Header("", "", ""))
  const UPDATING := UpdateSource(Header("", "", ""), None, [])

  lemma MarkersOfKinds()
    ensures MarkerOf(ADDING) == ADD_FILE_MARKER && MarkerOf(DELETING) == DELETE_FILE_MARKER
    ensures MarkerOf(UPDATING) == UPDATE_FILE_MARKER
  {
  }

  lemma AddedRead(lines: seq<string>) returns (added: seq<string>)
    ensures |PrintAdded(added)| == AddedLength(lines)
    ensures lines == PrintAdded(added) + lines[|PrintAdded(added)|..]
  {
    var n := AddedLength(lines);
    added := seq(n, i requires 0 <= i < n => lines[i][1..]);
    forall i | 0 <= i < n
      ensures "+" + added[i] == lines[i]
    {
      assert IsAddedLine(lines[i]);
    }
    assert PrintAdded(added) == lines[..n];
  }

  lemma AddRead(lines: seq<string>) returns (h: HunkSource, rest: seq<string>)
    requires lines != [] && StripPrefix(Trim(lines[0]), ADD_FILE_MARKER).Some?
    ensures Printable(h) && lines == PrintHunk(h) + rest && (rest != [] ==> EndsHunk(h, rest[0]))
  {
    hide Trim, AllWhitespace, IsPath, AddedLength, PrintAdded, MarkerOf;
    MarkersOfKinds();
    var header := HeaderRead(lines[0], ADDING);
    var added := AddedRead(lines[1..]);
    var n := |PrintAdded(added)|;
    h, rest := AddSource(header, added), lines[1..][n..];
    KindDecidesMarker(h, ADDING);
    assert lines == [lines[0]] + lines[1..];
    assert lines == PrintHunk(h) + rest;
    assert n < |lines[1..]| ==> rest[0] == lines[1..][n];
  }

  lemma DeleteRead(lines: seq<string>) returns (h: HunkSource, rest: seq<string>)
    requires lines != [] && StripPrefix(Trim(lines[0]), DELETE_FILE_MARKER).Some?
    ensures Printable(h) && lines == PrintHunk(h) + rest && (rest != [] ==> EndsHunk(h, rest[0]))
  {
    hide Trim, AllWhitespace, IsPath, MarkerOf;
    MarkersOfKinds();
    var header := HeaderRead(lines[0], DELETING);
    h, rest := DeleteSource(header), lines[1..];
    KindDecidesMarker(h, DELETING);
    assert lines == [lines[0]] + [] + lines[1..];
  }

  lemma KindDecidesMarker(h: HunkSource, kind: HunkSource)
    requires h.AddSource? == kind.AddSource? && h.DeleteSource? == kind.DeleteSource?
    ensures MarkerOf(h) == MarkerOf(kind)
  {
  }

  /** An update header with all that is read below it. */
  lemma UpdateHunkRead(lines: seq<string>, m: nat) returns (h: HunkSource, rest: seq<string>)
    requires lines != [] && StripPrefix(Trim(lines[0]), UPDATE_FILE_MARKER).Some?
    ensures h.UpdateSource? && IsPadded(h.header) && lines == PrintHunk(h) + rest && IsBehind(h, rest)
    ensures rest != [] ==> !AllWhitespace(rest[0])
    ensures rest == [] || HasPrefix(rest[0], "***") ||
            ParseChunk(rest, m + |PrintHunk(h)|, ItemsMeaning(h.items) == []).Err?
  {
    hide Trim, AllWhitespace, IsPath, MarkerOf, IsBehind, ParseChunk, PrintRest, ItemsMeaning;
    MarkersOfKinds();
    var header := HeaderRead(lines[0], UPDATING);
    h, rest := UpdateRead(header, lines[1..], m);
    KindDecidesMarker(h, UPDATING);
    assert lines == [lines[0]] + lines[1..];
    assert lines == PrintHunk(h) + rest;
  }

  /** What parsing makes of an update with all that is read below it. */
  lemma UpdateDecided(h: HunkSource, rest: seq<string>, m: nat)
    requires h.UpdateSource? && IsPadded(h.header) && IsBehind(h, rest)
    ensures var k := |PrintHunk(h)|;
            var more := ParseChunks(rest, m + k, ItemsMeaning(h.items) == []);
            var u := UpdateResult(h.header.path, h.movePath, Prepend(ItemsMeaning(h.items), k - 1, more), m);
            ParseHunk(PrintHunk(h) + rest, m) == if u.Ok? then Ok((u.value.0, 1 + u.value.1)) else u
  {
    hide Trim, StripPrefix, ParseHunk, ParseUpdate, ParseChunks, AddedLength, AddedText, PrintHeader, AllWhitespace;
    hide PrintRest, ItemsMeaning, Fit, EndsDiff, IsOpen, IsPath, UpdateResult, Prepend;
    MarkersDiffer(h.header.path);
    HeaderTrimmed(h);
    UpdateInFront(h, rest, m);
    FirstAndRest(PrintHeader(h), PrintRest(h), rest);
    HeaderDecides([PrintHeader(h)] + PrintRest(h) + rest, m);
  }

  lemma OverDecides(h: HunkSource, rest: seq<string>, m: nat, e: ParseError)
    requires h.UpdateSource? && IsPadded(h.header) && IsBehind(h, rest)
    requires rest == [] || HasPrefix(rest[0], "***")
    ensures ParseHunk(PrintHunk(h) + rest, m) == Err(e) <==> IsUpdateFault(h, rest, m, e)
    ensures ParseHunk(PrintHunk(h) + rest, m).Ok? ==>
              Printable(h) && (rest != [] ==> EndsHunk(h, rest[0]))
  {
    hide ParseHunk, ParseChunks, ParseChunk, PrintHunk, ItemsMeaning, IsPath, AllWhitespace, HasPrefix, Fit, IsOpen;
    hide IsPrintedDiff, Prepend;
    var n, first := m + |PrintHunk(h)|, ItemsMeaning(h.items) == [];
    PrintedHunkStarts(h);
    UpdateDecided(h, rest, m);
    ChunksStep(rest, n, first);
    PrependOk(ItemsMeaning(h.items), |PrintHunk(h)| - 1);
    if rest != [] {
      StarsEndDiff(rest[0]);
    }
  }

  lemma FaultDecides(h: HunkSource, rest: seq<string>, m: nat, e: ParseError)
    requires h.UpdateSource? && IsPadded(h.header) && IsBehind(h, rest)
    requires rest != [] && !AllWhitespace(rest[0]) && !HasPrefix(rest[0], "***")
    requires ParseChunk(rest, m + |PrintHunk(h)|, ItemsMeaning(h.items) == []).Err?
    ensures ParseHunk(PrintHunk(h) + rest, m).Err?
    ensures ParseHunk(PrintHunk(h) + rest, m) == Err(e) <==> IsUpdateFault(h, rest, m, e)
  {
    hide ParseHunk, ParseChunks, ParseChunk, PrintHunk, ItemsMeaning, IsPadded, AllWhitespace, HasPrefix, IsBehind;
    hide IsChunkFault, Prepend, IsBlankLine;
    var n, first := m + |PrintHunk(h)|, ItemsMeaning(h.items) == [];
    PrintedHunkStarts(h);
    UpdateDecided(h, rest, m);
    ChunksStep(rest, n, first);
    NotBlank(rest[0]);
    PrependErr(ItemsMeaning(h.items), |PrintHunk(h)| - 1, ParseChunk(rest, n, first).error);
    ChunkFaultIff(rest, n, first, e);
  }

  /** What the lines behind an update make of it: it is over, or ends in a fault. */
  lemma BehindDecides(h: HunkSource, rest: seq<string>, m: nat, e: ParseError)
    requires h.UpdateSource? && IsPadded(h.header) && IsBehind(h, rest)
    requires rest != [] ==> !AllWhitespace(rest[0])
    requires rest == [] || HasPrefix(rest[0], "***") ||
             ParseChunk(rest, m + |PrintHunk(h)|, ItemsMeaning(h.items) == []).Err?
    ensures ParseHunk(PrintHunk(h) + rest, m) == Err(e) <==> IsUpdateFault(h, rest, m, e)
    ensures ParseHunk(PrintHunk(h) + rest, m).Ok? ==>
              Printable(h) && (rest != [] ==> EndsHunk(h, rest[0]))
  {
    hide ParseHunk, ParseChunk, PrintHunk, ItemsMeaning, IsPadded, IsBehind, IsUpdateFault, HasPrefix, Printable;
    hide EndsHunk, AllWhitespace;
    if rest == [] || HasPrefix(rest[0], "***") {
      OverDecides(h, rest, m, e);
    } else {
      FaultDecides(h, rest, m, e);
    }
  }

  /** A header is a line that trims to one of the markers and a path. */
  lemma HeaderIff(line: string)
    ensures IsHeader(line) <==>
            || StripPrefix(Trim(line), ADD_FILE_MARKER).Some?
            || StripPrefix(Trim(line), DELETE_FILE_MARKER).Some?
            || StripPrefix(Trim(line), UPDATE_FILE_MARKER).Some?
  {
    hide Trim, PrintHeader, MarkerOf, StripPrefix, IsPath, AllWhitespace;
    MarkersOfKinds();
    if IsHeader(line) {
      var h: HunkSource :| IsPadded(h.header) && line == PrintHeader(h);
      HeaderTrimmed(h);
      KindDecidesMarker(h, if h.AddSource? then ADDING else if h.DeleteSource? then DELETING else UPDATING);
    }
    IsHeaderOf(line, ADDING);
    IsHeaderOf(line, DELETING);
    IsHeaderOf(line, UPDATING);
  }

  lemma IsHeaderOf(line: string, kind: HunkSource)
    ensures StripPrefix(Trim(line), MarkerOf(kind)).Some? ==> IsHeader(line)
  {
    hide Trim, MarkerOf, IsPadded;
    if StripPrefix(Trim(line), MarkerOf(kind)).Some? {
      var header := HeaderRead(line, kind);
      var h := match kind
        case AddSource(_, lines) => AddSource(header, lines)
        case DeleteSource(_) => DeleteSource(header)
        case UpdateSource(_, movePath, items) => UpdateSource(header, movePath, items);
      KindDecidesMarker(h, kind);
      assert IsPadded(h.header) && line == PrintHeader(h);
    }
  }

  /** A hunk that is accepted was printed, up to where it ends. */
  lemma HunkRead(lines: seq<string>, m: nat) returns (h: HunkSource, rest: seq<string>)
    requires lines != [] && ParseHunk(lines, m).Ok?
    ensures Printable(h) && lines == PrintHunk(h) + rest && (rest != [] ==> EndsHunk(h, rest[0]))
  {
    if StripPrefix(Trim(lines[0]), ADD_FILE_MARKER).Some? {
      h, rest := AddRead(lines);
    } else if StripPrefix(Trim(lines[0]), DELETE_FILE_MARKER).Some? {
      h, rest := DeleteRead(lines);
    } else {
      UpdateIsLeft(lines, m);
      h, rest := UpdateHunkRead(lines, m);
      BehindDecides(h, rest, m, InvalidPatch(NoLines));
    }
  }

  lemma UpdateIsLeft(lines: seq<string>, m: nat)
    requires lines != [] && ParseHunk(lines, m).Ok?
    requires StripPrefix(Trim(lines[0]), ADD_FILE_MARKER).None?
    requires StripPrefix(Trim(lines[0]), DELETE_FILE_MARKER).None?
    ensures StripPrefix(Trim(lines[0]), UPDATE_FILE_MARKER).Some?
  {
    hide Trim, StripPrefix, ParseUpdate, AddedLength, AddedText;
  }

  lemma NoHeader(lines: seq<string>, m: nat)
    requires lines != []
    requires StripPrefix(Trim(lines[0]), ADD_FILE_MARKER).None?
    requires StripPrefix(Trim(lines[0]), DELETE_FILE_MARKER).None?
    requires StripPrefix(Trim(lines[0]), UPDATE_FILE_MARKER).None?
    ensures ParseHunk(lines, m) == Err(InvalidHunk(BadHeader(Trim(lines[0])), m))
  {
    hide Trim, StripPrefix, ParseUpdate, AddedLength, AddedText;
  }

  /** A faulty update is refused for its fault. */
  lemma UpdateFaultRefused(h: HunkSource, rest: seq<string>, m: nat, e: ParseError)
    requires IsPadded(h.header) && IsUpdateFault(h, rest, m, e)
    ensures ParseHunk(PrintHunk(h) + rest, m) == Err(e)
  {
    hide ParseHunk, ParseChunk, PrintHunk, ItemsMeaning, IsPadded, AllWhitespace, HasPrefix, IsBehind, IsPrintedDiff;
    if rest != [] {
      if HasPrefix(rest[0], "***") {
        StarsAreNotBlank(rest[0]);
      } else {
        ChunkFaultIff(rest, m + |PrintHunk(h)|, ItemsMeaning(h.items) == [], e);
      }
    }
    BehindDecides(h, rest, m, e);
  }

  lemma HunkFaultIff(lines: seq<string>, m: nat, e: ParseError)
    requires lines != []
    ensures ParseHunk(lines, m) == Err(e) <==> IsHunkFault(lines, m, e)
  {
    hide ParseHunk, Trim, StripPrefix, IsHeader, PrintHunk, IsUpdateFault, IsPadded, IsBehind, ParseChunk;
    HeaderIff(lines[0]);
    if ParseHunk(lines, m) == Err(e) {
      RefusedHunkIsFaulty(lines, m, e);
    }
    if IsHunkFault(lines, m, e) {
      if !IsHeader(lines[0]) && e == InvalidHunk(BadHeader(Trim(lines[0])), m) {
        NoHeader(lines, m);
      } else {
        var h: HunkSource, rest: seq<string> :|
          IsPadded(h.header) && lines == PrintHunk(h) + rest && IsUpdateFault(h, rest, m, e);
        UpdateFaultRefused(h, rest, m, e);
      }
    }
  }

  lemma RefusedHunkIsFaulty(lines: seq<string>, m: nat, e: ParseError)
    requires lines != [] && ParseHunk(lines, m) == Err(e)
    ensures IsHunkFault(lines, m, e)
  {
    hide Trim, StripPrefix, IsHeader, PrintHunk, IsUpdateFault, IsPadded, IsBehind, ParseChunk, AddedText, AddedLength;
    hide ParseUpdate, HasPrefix, AllWhitespace, ItemsMeaning, Printable, EndsHunk;
    HeaderIff(lines[0]);
    HeaderDecides(lines, m);
    if StripPrefix(Trim(lines[0]), UPDATE_FILE_MARKER).Some? {
      var h, rest := UpdateHunkRead(lines, m);
      BehindDecides(h, rest, m, e);
    } else {
      NoHeader(lines, m);
    }
  }

  /** All hunks that can be read, and what stops them. */
  lemma {:induction false} HunksRead(lines: seq<string>, m: nat) returns (hs: seq<HunkSource>, rest: seq<string>)
    ensures IsPatch(hs) && lines == PrintHunks(hs) + rest
    ensures hs != [] && rest != [] ==> EndsHunk(hs[|hs| - 1], rest[0])
    ensures rest != [] ==> ParseHunk(rest, m + |PrintHunks(hs)|).Err?
    decreases |lines|
  {
    hide ParseHunk, PrintHunk, Printable, EndsHunk;
    if lines == [] || ParseHunk(lines, m).Err? {
      hs, rest := [], lines;
      assert PrintHunks(hs) + rest == rest;
    } else {
      var h, behind := HunkRead(lines, m);
      PrintedHunkStarts(h);
      var tail;
      tail, rest := HunksRead(behind, m + |PrintHunk(h)|);
      hs := HunksCons(h, tail, rest);
    }
  }

  lemma HunksCons(h: HunkSource, tail: seq<HunkSource>, rest: seq<string>) returns (hs: seq<HunkSource>)
    requires Printable(h) && IsPatch(tail) && (tail != [] && rest != [] ==> EndsHunk(tail[|tail| - 1], rest[0]))
    requires var behind := PrintHunks(tail) + rest; behind != [] ==> EndsHunk(h, behind[0])
    ensures IsPatch(hs) && (hs != [] && rest != [] ==> EndsHunk(hs[|hs| - 1], rest[0]))
    ensures PrintHunks(hs) + rest == PrintHunk(h) + (PrintHunks(tail) + rest)
    ensures |PrintHunks(hs)| == |PrintHunk(h)| + |PrintHunks(tail)|
  {
    hide PrintHunk, Printable, EndsHunk;
    hs := [h] + tail;
    PrintHunksCons(h, tail);
    if tail == [] {
      assert PrintHunks(tail) + rest == rest;
    } else {
      PrintedHunkStarts(tail[0]);
      assert (PrintHunks(tail) + rest)[0] == PrintHeader(tail[0]);
      EndsHunkUnpadded(h, tail[0]);
    }
  }

  lemma EndsHunkUnpadded(h: HunkSource, next: HunkSource)
    requires Printable(next) && EndsHunk(h, PrintHeader(next))
    ensures h.UpdateSource? ==> next.header.before == ""
  {
    hide PrintHeader, IsPath, Fit, ItemsMeaning, IsOpen, AllWhitespace;
    PaddedHeader(next);
  }

  lemma PaddedHeader(h: HunkSource)
    requires AllWhitespace(h.header.before)
    ensures h.header.before != "" ==> !HasPrefix(PrintHeader(h), "***")
  {
    if h.header.before != "" {
      assert PrintHeader(h)[0] == h.header.before[0] && "***"[0] == '*';
    }
  }

  // ------------------------------------------------------------------ theorems

  /** Behind all hunks that can be read stands a fault. */
  ghost predicate IsBodyFault(lines: seq<string>, m: nat, e: ParseError) {
    exists hs: seq<HunkSource>, rest: seq<string> :: IsFaultBehind(lines, m, e, hs, rest)
  }

  ghost predicate IsFaultBehind(lines: seq<string>, m: nat, e: ParseError, hs: seq<HunkSource>, rest: seq<string>) {
    && IsPatch(hs) && lines == PrintHunks(hs) + rest && rest != []
    && (hs != [] ==> EndsHunk(hs[|hs| - 1], rest[0]))
    && IsHunkFault(rest, m + |PrintHunks(hs)|, e)
  }

  lemma PrintsAreAccepted(hs: seq<HunkSource>, m: nat)
    requires IsPatch(hs)
    ensures ParseHunks(PrintHunks(hs), m) == Ok(HunksMeaning(hs))
  {
    hide ParseHunks, PrintHunks, HunksMeaning, IsPatch;
    HunksInFrontOf(hs, [], m);
    assert PrintHunks(hs) + [] == PrintHunks(hs);
    HunksStep([], m + |PrintHunks(hs)|);
    NothingBehind(HunksMeaning(hs));
  }

  lemma FaultIsRefused(lines: seq<string>, m: nat, e: ParseError, hs: seq<HunkSource>, rest: seq<string>)
    requires IsFaultBehind(lines, m, e, hs, rest)
    ensures ParseHunks(lines, m) == Err(e)
  {
    hide ParseHunks, ParseHunk, PrintHunks, HunksMeaning, IsPatch, EndsHunk, IsHunkFault;
    var n := m + |PrintHunks(hs)|;
    HunksInFrontOf(hs, rest, m);
    HunksStep(rest, n);
    HunkFaultIff(rest, n, e);
    ErrorInFront(HunksMeaning(hs), e);
  }

  /** A body is the print of some hunks, or has a fault behind some. */
  lemma PrintOrFault(lines: seq<string>, m: nat)
    ensures var r := ParseHunks(lines, m);
            if r.Ok? then exists hs :: IsPatch(hs) && PrintHunks(hs) == lines && HunksMeaning(hs) == r.value
            else IsBodyFault(lines, m, r.error)
  {
    hide ParseHunks, ParseHunk, PrintHunks, HunksMeaning, IsPatch, EndsHunk, IsHunkFault;
    var hs, rest := HunksRead(lines, m);
    if rest == [] {
      PrintsAreAccepted(hs, m);
      assert PrintHunks(hs) + [] == PrintHunks(hs);
    } else {
      var n := m + |PrintHunks(hs)|;
      var e := ParseHunk(rest, n).error;
      HunkFaultIff(rest, n, e);
      assert IsFaultBehind(lines, m, e, hs, rest);
      FaultIsRefused(lines, m, e, hs, rest);
    }
  }

  /** What is parsed: the lines, or in lenient mode those inside a heredoc. */
  function TextOf(lines: seq<string>, mode: ParseMode): seq<string> {
    if && mode.Lenient? && |lines| >= 4 && lines[0] in ["<<EOF", "<<'EOF'", "<<\"EOF\""]
       && |lines[|lines| - 1]| >= 3 && lines[|lines| - 1][|lines[|lines| - 1]| - 3..] == "EOF"
    then lines[1..|lines| - 1]
    else lines
  }

  predicate HasMarkers(text: seq<string>) {
    |text| >= 2 && text[0] == "*** Begin Patch" && text[|text| - 1] == "*** End Patch"
  }

  /** Parsing in terms of the text between the markers. */
  lemma BodyIsParsed(lines: seq<string>, mode: ParseMode)
    ensures var text, r := TextOf(lines, mode), ParseLines(lines, mode);
            if HasMarkers(text) then
              var h := ParseHunks(text[1..|text| - 1], 2);
              r == if h.Ok? then Ok(Patch(h.value, text)) else Err(h.error)
            else
              r == Err(InvalidPatch(if text != [] && text[0] != "*** Begin Patch" then FirstLineIsNotBegin
                                    else LastLineIsNotEnd))
  {
    hide ParseHunks;
    var text := TextOf(lines, mode);
    MarkersChecked(text);
    if text != lines {
      assert lines[0] != "*** Begin Patch";
    }
  }

  lemma MarkersChecked(text: seq<string>)
    ensures CheckStrict(text) ==
            if HasMarkers(text) then None
            else Some(InvalidPatch(if text != [] && text[0] != "*** Begin Patch" then FirstLineIsNotBegin
                                   else LastLineIsNotEnd))
  {
  }

  /** The parser accepts exactly the printed patches, with their hunks. */
  lemma ParsesExactlyPrints(lines: seq<string>, mode: ParseMode, patch: Patch)
    ensures ParseLines(lines, mode) == Ok(patch) <==>
            && patch.lines == TextOf(lines, mode)
            && exists hs :: IsPatch(hs) && patch.lines == PrintPatch(hs) && patch.hunks == HunksMeaning(hs)
  {
    hide ParseHunks, ParseLines, PrintHunks, HunksMeaning, IsPatch, TextOf;
    BodyIsParsed(lines, mode);
    var text := TextOf(lines, mode);
    if HasMarkers(text) {
      PrintOrFault(text[1..|text| - 1], 2);
      if ParseLines(lines, mode) == Ok(patch) {
        var hs :| IsPatch(hs) && PrintHunks(hs) == text[1..|text| - 1] && HunksMeaning(hs) == patch.hunks;
        assert text == [text[0]] + text[1..|text| - 1] + [text[|text| - 1]];
        assert patch.lines == PrintPatch(hs);
      }
    }
    forall hs | IsPatch(hs) && text == PrintPatch(hs)
      ensures ParseLines(lines, mode) == Ok(Patch(HunksMeaning(hs), text))
    {
      assert text[1..|text| - 1] == PrintHunks(hs);
      PrintsAreAccepted(hs, 2);
    }
  }

  /** Any other text is refused: for a missing marker, or for the first fault
      behind the hunks that can be read. */
  lemma RefusesExactlyFaults(lines: seq<string>, mode: ParseMode, e: ParseError)
    ensures var text := TextOf(lines, mode);
            ParseLines(lines, mode) == Err(e) <==>
              if HasMarkers(text) then IsBodyFault(text[1..|text| - 1], 2, e)
              else e == InvalidPatch(if text != [] && text[0] != "*** Begin Patch" then FirstLineIsNotBegin
                                     else LastLineIsNotEnd)
  {
    hide ParseHunks, ParseLines, TextOf, IsFaultBehind, IsPatch, PrintHunks, HunksMeaning;
    BodyIsParsed(lines, mode);
    var text := TextOf(lines, mode);
    if HasMarkers(text) {
      var body := text[1..|text| - 1];
      PrintOrFault(body, 2);
      if IsBodyFault(body, 2, e) {
        var hs, rest :| IsFaultBehind(body, 2, e, hs, rest);
        FaultIsRefused(body, 2, e, hs, rest);
      }
    }
  }

  // --------------------------------------------------------------- expressible

  lemma {:induction false} UnlinesEnds(lines: seq<string>)
    ensures var s := Unlines(lines); s == "" || s[|s| - 1] == '\n'
  {
    if lines != [] {
      UnlinesEnds(lines[1..]);
      var rest := Unlines(lines[1..]);
      assert Unlines(lines) == lines[0] + ("\n" + rest);
    }
  }

  lemma {:induction false} ItemsHaveLines(items: seq<Item>, first: bool, open: bool)
    requires Fit(items, first, open)
    ensures forall c | c in ItemsMeaning(items) :: c.oldLines != [] || c.newLines != []
    decreases |items|
  {
    hide PrintDiffLine, IsPrintedDiff, AllWhitespace;
    if items != [] {
      ItemsHaveLines(items[1..], first && items[0].Blank?, items[0].Change? && !items[0].chunk.endOfFile);
    }
  }

  lemma MeaningIsExpressible(h: HunkSource)
    requires Printable(h)
    ensures Expressible(HunkMeaning(h))
  {
    hide Unlines, ItemsMeaning, Fit;
    if h.AddSource? {
      UnlinesEnds(h.lines);
    } else if h.UpdateSource? {
      ItemsHaveLines(h.items, true, false);
    }
  }

  /** Exactly the lists of expressible hunks are parsed from some text. */
  lemma ParsesExactlyTheExpressible(hunks: seq<Hunk>, mode: ParseMode)
    ensures (exists lines, text :: ParseLines(lines, mode) == Ok(Patch(hunks, text))) <==>
            forall h | h in hunks :: Expressible(h)
  {
    hide ParseLines, Expressible, Printable, PrintPatch, HunkMeaning;
    if lines, text :| ParseLines(lines, mode) == Ok(Patch(hunks, text)) {
      ParsesExactlyPrints(lines, mode, Patch(hunks, text));
      var hs :| IsPatch(hs) && text == PrintPatch(hs) && hunks == HunksMeaning(hs);
      forall h | h in hunks
        ensures Expressible(h)
      {
        var i :| 0 <= i < |hs| && hunks[i] == h;
        assert hs[i] in hs;
        MeaningIsExpressible(hs[i]);
      }
    }
    if forall h | h in hunks :: Expressible(h) {
      EveryExpressiblePatchRoundTrips(hunks, mode);
    }
  }
}
