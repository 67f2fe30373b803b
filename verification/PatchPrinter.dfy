/** The patch format as a printer: what can be written down, what it means, and
    that parsing (code-rs/apply-patch/src/parser.rs) gives back that meaning. */
module PatchPrinter {
  import opened Text
  import opened Trimming
  import opened Lines
  import opened PatchParser

  /** `Empty` is a context line without text that lost its leading blank. */
  datatype DiffLine = Context(text: string) | Removed(text: string) | Added(text: string) | Empty

  /** A `bare` chunk leaves out its `@@` line. */
  datatype ChunkSource = ChunkSource(bare: bool, context: Option<string>, diff: seq<DiffLine>, endOfFile: bool)

  datatype Item = Blank(line: string) | Change(chunk: ChunkSource)

  /** A path with the white space around the header it stands in. */
  datatype Header = Header(before: string, path: string, after: string)

  datatype HunkSource =
    | AddSource(header: Header, lines: seq<string>)
    | DeleteSource(header: Header)
    | UpdateSource(header: Header, movePath: Option<string>, items: seq<Item>)

  // ---------------------------------------------------------------- printing

  function PrintDiffLine(d: DiffLine): string {
    match d
    case Context(text) => " " + text
    case Removed(text) => "-" + text
    case Added(text) => "+" + text
    case Empty => ""
  }

  function PrintDiff(diff: seq<DiffLine>): seq<string> {
    seq(|diff|, i requires 0 <= i < |diff| => PrintDiffLine(diff[i]))
  }

  function PrintContext(context: Option<string>): string {
    if context.None? then "@@" else "@@ " + context.value
  }

  function PrintBody(c: ChunkSource): seq<string> {
    PrintDiff(c.diff) + if c.endOfFile then ["*** End of File"] else []
  }

  function PrintChunk(c: ChunkSource): seq<string> {
    if c.bare then PrintBody(c) else [PrintContext(c.context)] + PrintBody(c)
  }

  function PrintItem(item: Item): seq<string> {
    if item.Blank? then [item.line] else PrintChunk(item.chunk)
  }

  function PrintItems(items: seq<Item>): seq<string> {
    if items == [] then [] else PrintItem(items[0]) + PrintItems(items[1..])
  }

  function PrintAdded(lines: seq<string>): seq<string> {
    seq(|lines|, i requires 0 <= i < |lines| => "+" + lines[i])
  }

  function PrintMove(movePath: Option<string>): seq<string> {
    if movePath.Some? then ["*** Move to: " + movePath.value] else []
  }

  function MarkerOf(h: HunkSource): string {
    match h
    case AddSource(_, _) => "*** Add File: "
    case DeleteSource(_) => "*** Delete File: "
    case UpdateSource(_, _, _) => "*** Update File: "
  }

  function PrintHeader(h: HunkSource): string {
    h.header.before + (MarkerOf(h) + h.header.path) + h.header.after
  }

  function PrintRest(h: HunkSource): seq<string> {
    match h
    case AddSource(_, lines) => PrintAdded(lines)
    case DeleteSource(_) => []
    case UpdateSource(_, movePath, items) => PrintMove(movePath) + PrintItems(items)
  }

  function PrintHunk(h: HunkSource): seq<string> {
    [PrintHeader(h)] + PrintRest(h)
  }

  function PrintHunks(hs: seq<HunkSource>): seq<string> {
    if hs == [] then [] else PrintHunk(hs[0]) + PrintHunks(hs[1..])
  }

  function PrintPatch(hs: seq<HunkSource>): seq<string> {
    ["*** Begin Patch"] + PrintHunks(hs) + ["*** End Patch"]
  }

  // ----------------------------------------------------------------- meaning

  function ShownText(d: DiffLine): string {
    if d.Empty? then "" else d.text
  }

  /** Context and removed lines, in order. */
  function OldText(diff: seq<DiffLine>): seq<string> {
    if diff == [] then []
    else OldText(diff[..|diff| - 1]) + if diff[|diff| - 1].Added? then [] else [ShownText(diff[|diff| - 1])]
  }

  /** Context and added lines, in order. */
  function NewText(diff: seq<DiffLine>): seq<string> {
    if diff == [] then []
    else NewText(diff[..|diff| - 1]) + if diff[|diff| - 1].Removed? then [] else [ShownText(diff[|diff| - 1])]
  }

  function ChunkMeaning(c: ChunkSource): Chunk {
    Chunk(c.context, OldText(c.diff), NewText(c.diff), c.endOfFile)
  }

  /** Blank lines mean nothing. */
  function ItemsMeaning(items: seq<Item>): seq<Chunk> {
    if items == [] then []
    else (if items[0].Blank? then [] else [ChunkMeaning(items[0].chunk)]) + ItemsMeaning(items[1..])
  }

  function HunkMeaning(h: HunkSource): Hunk {
    match h
    case AddSource(header, lines) => AddFile(header.path, Unlines(lines))
    case DeleteSource(header) => DeleteFile(header.path)
    case UpdateSource(header, movePath, items) => UpdateFile(header.path, movePath, ItemsMeaning(items))
  }

  function HunksMeaning(hs: seq<HunkSource>): seq<Hunk> {
    seq(|hs|, i requires 0 <= i < |hs| => HunkMeaning(hs[i]))
  }

  // -------------------------------------------------------- what can be written

  ghost predicate IsPrintedDiff(line: string) {
    exists d: DiffLine :: PrintDiffLine(d) == line
  }

  /** A line that ends the diff before it. */
  ghost predicate EndsDiff(line: string) {
    !IsPrintedDiff(line) && line != "*** End of File"
  }

  /** Only the first chunk of an update can leave out its `@@` line, and only
      if it has no context and does not begin with a blank line. */
  predicate IsChunk(c: ChunkSource, first: bool) {
    && c.diff != []
    && (c.bare ==> first && c.context.None? && !AllWhitespace(PrintDiffLine(c.diff[0])))
  }

  /** A chunk without end-of-file marker goes on with any diff line behind it. */
  predicate IsOpen(items: seq<Item>, open: bool) {
    if items == [] then open
    else items[|items| - 1].Change? && !items[|items| - 1].chunk.endOfFile
  }

  /** What can stand below an update header: chunks and blank lines, where a
      blank line behind an open chunk is not one of its diff lines. */
  ghost predicate Fit(items: seq<Item>, first: bool, open: bool)
    decreases |items|
  {
    items == [] ||
    match items[0]
    case Blank(line) => AllWhitespace(line) && (open ==> !IsPrintedDiff(line)) && Fit(items[1..], first, false)
    case Change(c) => IsChunk(c, first) && Fit(items[1..], false, !c.endOfFile)
  }

  predicate IsPath(path: string) {
    path != "" && !IsWhitespace(path[|path| - 1])
  }

  ghost predicate Printable(h: HunkSource) {
    && IsPath(h.header.path) && AllWhitespace(h.header.before) && AllWhitespace(h.header.after)
    && (h.UpdateSource? ==> Fit(h.items, true, false) && ItemsMeaning(h.items) != [])
  }

  /** The header behind an update must not be indented. */
  ghost predicate IsPatch(hs: seq<HunkSource>) {
    && (forall h | h in hs :: Printable(h))
    && forall i | 0 < i < |hs| :: hs[i - 1].UpdateSource? ==> hs[i].header.before == ""
  }

  /** A line that is not taken for a part of the hunk before it. */
  predicate EndsHunk(h: HunkSource, line: string) {
    match h
    case AddSource(_, _) => !HasPrefix(line, "+")
    case DeleteSource(_) => true
    case UpdateSource(_, _, items) => HasPrefix(line, "***") && (IsOpen(items, false) ==> line != "*** End of File")
  }

  // -------------------------------------------------------------------- diffs

  lemma DiffLineIffPrinted(line: string)
    ensures IsDiffLine(line) <==> IsPrintedDiff(line)
  {
    if line == "" {
      assert PrintDiffLine(Empty) == line;
    } else if IsDiffLine(line) {
      var d := if line[0] == ' ' then Context(line[1..])
               else if line[0] == '-' then Removed(line[1..])
               else Added(line[1..]);
      assert PrintDiffLine(d) == [line[0]] + line[1..] == line;
    }
  }

  lemma PrintedLineMeans(d: DiffLine)
    ensures IsDiffLine(PrintDiffLine(d))
    ensures OldOf(PrintDiffLine(d)) == if d.Added? then [] else [ShownText(d)]
    ensures NewOf(PrintDiffLine(d)) == if d.Removed? then [] else [ShownText(d)]
  {
  }

  lemma {:induction false} PrintedDiffMeans(diff: seq<DiffLine>)
    ensures OldLines(PrintDiff(diff)) == OldText(diff) && NewLines(PrintDiff(diff)) == NewText(diff)
  {
    hide OldOf, NewOf, PrintDiffLine, ShownText, IsDiffLine;
    if diff != [] {
      var n := |diff| - 1;
      PrintedDiffMeans(diff[..n]);
      assert PrintDiff(diff)[..n] == PrintDiff(diff[..n]);
      PrintedLineMeans(diff[n]);
    }
  }

  lemma {:induction false} PrintedDiffLength(diff: seq<DiffLine>, rest: seq<string>)
    requires rest == [] || !IsDiffLine(rest[0])
    ensures DiffLength(PrintDiff(diff) + rest) == |diff|
  {
    hide IsDiffLine, PrintDiffLine, ShownText, OldOf, NewOf;
    var lines := PrintDiff(diff) + rest;
    if diff == [] {
      assert lines == rest;
    } else {
      PrintedLineMeans(diff[0]);
      PrintedDiffLength(diff[1..], rest);
      assert lines[1..] == PrintDiff(diff[1..]) + rest;
      assert lines[0] == PrintDiffLine(diff[0]);
    }
  }

  // ------------------------------------------------------------------- chunks

  lemma NotBlank(line: string)
    ensures IsBlankLine(line) <==> AllWhitespace(line)
    ensures line != "" && !IsWhitespace(line[0]) ==> !IsBlankLine(line)
  {
    BlankIffTrimmedAway(line);
  }

  lemma ContextFacts(context: Option<string>)
    ensures var line := PrintContext(context);
            && HasContextLine(line) && ContextOf(line) == context && !IsDiffLine(line) && line != "*** End of File"
            && !IsBlankLine(line) && !StopsChunks(line)
  {
    hide HasContextLine, ContextOf, IsDiffLine, IsBlankLine, StopsChunks, PrintContext;
    ContextPrinted(context);
    AtSignFacts(PrintContext(context));
  }

  lemma ContextPrinted(context: Option<string>)
    ensures var line := PrintContext(context);
            HasContextLine(line) && ContextOf(line) == context && line != "" && line[0] == '@'
  {
    var line := PrintContext(context);
    if context.Some? {
      assert line[..3] == CHANGE_CONTEXT_MARKER && line[3..] == context.value;
    }
  }

  lemma AtSignFacts(line: string)
    requires line != "" && line[0] == '@'
    ensures !IsDiffLine(line) && line != "*** End of File" && !IsBlankLine(line) && !StopsChunks(line)
  {
    hide IsBlankLine;
    NotBlank(line);
    assert "***"[0] == "*** End of File"[0] == '*';
  }

  lemma DiffLineFacts(d: DiffLine)
    ensures var line := PrintDiffLine(d);
            !HasContextLine(line) && !StopsChunks(line) && line != "*** End of File" && IsDiffLine(line)
  {
    if !d.Empty? {
      assert PrintDiffLine(d)[0] in " -+";
    }
  }

  lemma BodyRoundTrip(c: ChunkSource, rest: seq<string>, m: nat)
    requires c.diff != [] && (c.endOfFile || rest == [] || EndsDiff(rest[0]))
    ensures ParseDiff(c.context, PrintBody(c) + rest, m) == Ok((ChunkMeaning(c), |PrintBody(c)|))
  {
    hide IsDiffLine, ParseDiff, DiffLength, OldLines, NewLines, PrintDiffLine, IsPrintedDiff;
    var printed := PrintDiff(c.diff);
    var tail := (if c.endOfFile then ["*** End of File"] else []) + rest;
    var lines := PrintBody(c) + rest;
    assert lines == printed + tail;
    EofMarkerFacts();
    if rest != [] {
      DiffLineIffPrinted(rest[0]);
    }
    PrintedDiffLength(c.diff, tail);
    PrintedDiffMeans(c.diff);
    DiffTaken(c.context, lines, m);
    assert lines[..|c.diff|] == printed;
    assert tail != [] ==> lines[|c.diff|] == tail[0];
  }

  lemma EofMarkerFacts()
    ensures !IsDiffLine("*** End of File") && EOF_MARKER == "*** End of File"
  {
  }

  /** A chunk with a context line is the chunk of the lines behind it; the
      first may do without. */
  lemma ChunkFromFirstLine(lines: seq<string>, m: nat, first: bool)
    requires lines != []
    ensures HasContextLine(lines[0]) ==>
              var r := ParseDiff(ContextOf(lines[0]), lines[1..], m);
              ParseChunk(lines, m, first) == if r.Ok? then Ok((r.value.0, r.value.1 + 1)) else r
    ensures !HasContextLine(lines[0]) ==>
              ParseChunk(lines, m, first) ==
                if first then ParseDiff(None, lines, m) else Err(InvalidHunk(MissingContext(lines[0]), m))
  {
    hide ParseDiff, HasContextLine, ContextOf;
  }

  lemma PrintedChunkStarts(c: ChunkSource, rest: seq<string>)
    requires c.diff != []
    ensures var lines := PrintChunk(c) + rest;
            && lines != [] && lines[0] == (if c.bare then PrintDiffLine(c.diff[0]) else PrintContext(c.context))
            && (if c.bare then lines == PrintBody(c) + rest else lines[1..] == PrintBody(c) + rest)
            && |PrintChunk(c)| == (if c.bare then 0 else 1) + |PrintBody(c)| >= 1
  {
    hide PrintContext, PrintDiffLine;
  }

  lemma ChunkRoundTrip(c: ChunkSource, rest: seq<string>, m: nat, first: bool)
    requires IsChunk(c, first) && (c.endOfFile || rest == [] || EndsDiff(rest[0]))
    ensures ParseChunk(PrintChunk(c) + rest, m, first) == Ok((ChunkMeaning(c), |PrintChunk(c)|))
  {
    hide ParseDiff, ParseChunk, PrintContext, ContextOf, HasContextLine, ChunkMeaning, PrintDiff, PrintBody, PrintChunk;
    hide EndsDiff, PrintDiffLine, IsBlankLine, StopsChunks, IsDiffLine;
    BodyRoundTrip(c, rest, m);
    ContextFacts(c.context);
    DiffLineFacts(c.diff[0]);
    PrintedChunkStarts(c, rest);
    ChunkFromFirstLine(PrintChunk(c) + rest, m, first);
  }

  // -------------------------------------------------------------------- items

  /** What the line of a chunk's beginning is not. */
  lemma ChunkStartFacts(c: ChunkSource, first: bool, rest: seq<string>)
    requires IsChunk(c, first)
    ensures var line := (PrintChunk(c) + rest)[0];
            && !IsBlankLine(line) && !StopsChunks(line) && line != "*** End of File"
            && !HasPrefix(line, "*** Move to: ") && (IsDiffLine(line) ==> c.bare)
  {
    hide PrintContext, HasContextLine, ContextOf, PrintDiff, PrintBody, PrintChunk, PrintDiffLine, IsBlankLine;
    hide StopsChunks, IsDiffLine, AllWhitespace;
    PrintedChunkStarts(c, rest);
    ContextFacts(c.context);
    DiffLineFacts(c.diff[0]);
    NotBlank(PrintDiffLine(c.diff[0]));
    MoveStops((PrintChunk(c) + rest)[0]);
  }

  lemma MoveStops(line: string)
    ensures HasPrefix(line, "*** Move to: ") ==> StopsChunks(line)
  {
    if HasPrefix(line, "*** Move to: ") {
      assert line[..3] == "*** Move to: "[..3] == "***";
    }
  }

  lemma BlankEndsDiff(line: string)
    requires AllWhitespace(line) && !IsPrintedDiff(line)
    ensures EndsDiff(line)
  {
    hide IsPrintedDiff;
    assert "*** End of File"[0] == '*' && !IsWhitespace('*');
  }

  lemma ChunkEndsDiff(c: ChunkSource, rest: seq<string>)
    requires IsChunk(c, false)
    ensures PrintChunk(c) != [] && EndsDiff((PrintChunk(c) + rest)[0])
  {
    hide IsPrintedDiff, IsDiffLine, PrintChunk, PrintDiffLine, HasPrefix, IsBlankLine, StopsChunks, AllWhitespace;
    ChunkStartFacts(c, false, rest);
    PrintedChunkStarts(c, rest);
    DiffLineIffPrinted((PrintChunk(c) + rest)[0]);
  }

  /** What follows an open chunk ends its diff. */
  lemma NextEndsDiff(items: seq<Item>, rest: seq<string>)
    requires Fit(items, false, true)
    requires IsOpen(items, true) && rest != [] ==> EndsDiff(rest[0])
    ensures PrintItems(items) + rest == [] || EndsDiff((PrintItems(items) + rest)[0])
  {
    hide EndsDiff, IsPrintedDiff, PrintChunk, IsChunk, AllWhitespace;
    if items == [] {
      assert PrintItems(items) + rest == rest;
    } else if items[0].Blank? {
      BlankEndsDiff(items[0].line);
    } else {
      ChunkEndsDiff(items[0].chunk, PrintItems(items[1..]) + rest);
    }
  }

  /** Parsing goes on behind printed items as if they were not there. */
  lemma {:induction false} ItemsInFront(items: seq<Item>, rest: seq<string>, m: nat, first: bool, open: bool)
    requires Fit(items, first, open)
    requires IsOpen(items, open) && rest != [] ==> EndsDiff(rest[0])
    ensures var k := |PrintItems(items)|;
            ParseChunks(PrintItems(items) + rest, m, first)
            == Prepend(ItemsMeaning(items), k, ParseChunks(rest, m + k, first && ItemsMeaning(items) == []))
    decreases |items|
  {
    hide ParseChunks, ParseChunk, Prepend, ChunkMeaning, PrintChunk, EndsDiff, IsChunk, IsPrintedDiff;
    hide IsBlankLine, StopsChunks, AllWhitespace, PrintItem, PrintItems, ItemsMeaning;
    if items == [] {
      NoItems(rest);
      PrependTwice([], 0, [], 0, ParseChunks(rest, m, first));
    } else {
      var item, more, k := items[0], PrintItems(items[1..]), |PrintItem(items[0])|;
      var r := ParseChunks(rest, m + |PrintItems(items)|, first && ItemsMeaning(items) == []);
      ItemsParts(items);
      assert PrintItems(items) + rest == PrintItem(item) + (more + rest);
      if item.Change? && !item.chunk.endOfFile {
        NextEndsDiff(items[1..], rest);
      }
      ItemInFront(item, more + rest, m, first);
      ItemsInFront(items[1..], rest, m + k, first && item.Blank?, item.Change? && !item.chunk.endOfFile);
      PrependTwice(if item.Blank? then [] else [ChunkMeaning(item.chunk)], k, ItemsMeaning(items[1..]), |more|, r);
    }
  }

  lemma ItemsParts(items: seq<Item>)
    requires items != []
    ensures PrintItems(items) == PrintItem(items[0]) + PrintItems(items[1..])
    ensures ItemsMeaning(items)
            == (if items[0].Blank? then [] else [ChunkMeaning(items[0].chunk)]) + ItemsMeaning(items[1..])
  {
    hide PrintItem, ChunkMeaning;
  }

  lemma NoItems(rest: seq<string>)
    ensures PrintItems([]) == [] && PrintItems([]) + rest == rest && ItemsMeaning([]) == []
  {
  }

  lemma ItemInFront(item: Item, rest: seq<string>, m: nat, first: bool)
    requires if item.Blank? then AllWhitespace(item.line) else IsChunk(item.chunk, first)
    requires item.Change? && !item.chunk.endOfFile && rest != [] ==> EndsDiff(rest[0])
    ensures var k := |PrintItem(item)|;
            ParseChunks(PrintItem(item) + rest, m, first)
            == Prepend(if item.Blank? then [] else [ChunkMeaning(item.chunk)], k,
                       ParseChunks(rest, m + k, first && item.Blank?))
  {
    hide ParseChunks, Prepend, ChunkMeaning, PrintChunk, EndsDiff, IsChunk, AllWhitespace;
    if item.Blank? {
      BlankInFront(item.line, rest, m, first);
    } else {
      ChunkInFront(item.chunk, rest, m, first);
    }
  }

  lemma BlankInFront(line: string, rest: seq<string>, m: nat, first: bool)
    requires AllWhitespace(line)
    ensures ParseChunks([line] + rest, m, first) == Prepend([], 1, ParseChunks(rest, m + 1, first))
  {
    hide ParseChunks, Prepend, IsBlankLine, StopsChunks, AllWhitespace;
    var lines := [line] + rest;
    assert lines[1..] == rest;
    ChunksStep(lines, m, first);
    NotBlank(line);
  }

  lemma ChunkInFront(c: ChunkSource, rest: seq<string>, m: nat, first: bool)
    requires IsChunk(c, first) && (c.endOfFile || rest == [] || EndsDiff(rest[0]))
    ensures var k := |PrintChunk(c)|;
            ParseChunks(PrintChunk(c) + rest, m, first)
            == Prepend([ChunkMeaning(c)], k, ParseChunks(rest, m + k, false))
  {
    hide ParseChunks, ParseChunk, Prepend, ChunkMeaning, PrintChunk, EndsDiff, IsChunk;
    hide IsBlankLine, StopsChunks, HasPrefix, IsDiffLine;
    var lines := PrintChunk(c) + rest;
    ChunksStep(lines, m, first);
    ChunkRoundTrip(c, rest, m, first);
    ChunkStartFacts(c, first, rest);
    assert lines[|PrintChunk(c)|..] == rest;
  }

  // -------------------------------------------------------------------- hunks

  lemma AddedTextAppend(lines: seq<string>, line: string)
    ensures AddedText(lines + [line]) == AddedText(lines) + AddedOf(line)
  {
  }

  lemma AddedOfPlus(line: string)
    ensures AddedOf("+" + line) == line + "\n"
  {
  }

  lemma PrintedAddedAppend(lines: seq<string>, line: string)
    ensures PrintAdded(lines + [line]) == PrintAdded(lines) + ["+" + line]
  {
  }

  lemma {:induction false} PrintedAddedMeans(lines: seq<string>)
    ensures AddedText(PrintAdded(lines)) == Unlines(lines)
  {
    if lines == [] {
      assert PrintAdded(lines) == [];
    } else {
      hide AddedText, AddedOf, Unlines, PrintAdded;
      var init, last := lines[..|lines| - 1], lines[|lines| - 1];
      assert lines == init + [last];
      PrintedAddedMeans(init);
      PrintedAddedAppend(init, last);
      AddedTextAppend(PrintAdded(init), "+" + last);
      AddedOfPlus(last);
      UnlinesAppend(init, last);
    }
  }

  lemma {:induction false} UnlinesAppend(lines: seq<string>, line: string)
    ensures Unlines(lines + [line]) == Unlines(lines) + (line + "\n")
  {
    if lines == [] {
      assert Unlines([line]) == line + ("\n" + Unlines([]));
    } else {
      UnlinesAppend(lines[1..], line);
      assert (lines + [line])[1..] == lines[1..] + [line];
    }
  }

  lemma {:induction false} PrintedAddedLength(lines: seq<string>, rest: seq<string>)
    requires rest == [] || !IsAddedLine(rest[0])
    ensures |PrintAdded(lines)| == |lines| == AddedLength(PrintAdded(lines) + rest)
  {
    var all := PrintAdded(lines) + rest;
    if lines == [] {
      assert all == rest;
    } else {
      PrintedAddedLength(lines[1..], rest);
      assert all[1..] == PrintAdded(lines[1..]) + rest;
      assert all[0] == "+" + lines[0];
    }
  }

  /** Trimming a header leaves its marker and its path. */
  lemma HeaderTrimmed(h: HunkSource)
    requires IsPath(h.header.path) && AllWhitespace(h.header.before) && AllWhitespace(h.header.after)
    ensures Trim(PrintHeader(h)) == MarkerOf(h) + h.header.path
    ensures StripPrefix(MarkerOf(h) + h.header.path, MarkerOf(h)) == Some(h.header.path)
  {
    MarkerStarts(h);
    hide Trim, IsWhitespace, AllWhitespace, MarkerOf;
    var path, s := h.header.path, MarkerOf(h) + h.header.path;
    assert s[0] == MarkerOf(h)[0] && s[|s| - 1] == path[|path| - 1] && s[|MarkerOf(h)|..] == path;
    TrimmedAlready(s);
    TrimPadded(h.header.before, s, h.header.after);
  }

  lemma MarkerStarts(h: HunkSource)
    ensures MarkerOf(h) != "" && MarkerOf(h)[0] == '*' && !IsWhitespace('*')
  {
  }

  /** The three markers exclude each other. */
  lemma MarkersDiffer(path: string)
    ensures StripPrefix("*** Delete File: " + path, ADD_FILE_MARKER) == None
    ensures StripPrefix("*** Update File: " + path, ADD_FILE_MARKER) == None
    ensures StripPrefix("*** Update File: " + path, DELETE_FILE_MARKER) == None
  {
    assert ("*** Delete File: " + path)[4] == 'D' && ("*** Update File: " + path)[4] == 'U';
    assert ADD_FILE_MARKER[4] == 'A' && DELETE_FILE_MARKER[4] == 'D';
  }

  lemma FirstAndRest<T>(x: T, middle: seq<T>, rest: seq<T>)
    ensures var all := [x] + middle + rest;
            all != [] && all[0] == x && all[1..] == middle + rest && all == [x] + (middle + rest)
  {
  }

  lemma FrontOfTail(lines: seq<string>, printed: seq<string>, rest: seq<string>)
    requires lines != [] && lines[1..] == printed + rest
    ensures 1 + |printed| <= |lines| && lines[1..1 + |printed|] == printed
  {
  }

  lemma AddRoundTrip(h: HunkSource, rest: seq<string>, m: nat)
    requires h.AddSource? && Printable(h) && (rest == [] || EndsHunk(h, rest[0]))
    ensures ParseHunk(PrintHunk(h) + rest, m) == Ok((HunkMeaning(h), |PrintHunk(h)|))
  {
    hide Trim, StripPrefix, ParseHunk, AddedText, AddedLength, PrintAdded, PrintHeader, Unlines, AllWhitespace, IsPath;
    var printed := PrintAdded(h.lines);
    PrintedAddedLength(h.lines, rest);
    PrintedAddedMeans(h.lines);
    HeaderTrimmed(h);
    FirstAndRest(PrintHeader(h), printed, rest);
    var lines := [PrintHeader(h)] + (printed + rest);
    HeaderDecides(lines, m);
    FrontOfTail(lines, printed, rest);
  }

  lemma DeleteRoundTrip(h: HunkSource, rest: seq<string>, m: nat)
    requires h.DeleteSource? && Printable(h)
    ensures ParseHunk(PrintHunk(h) + rest, m) == Ok((HunkMeaning(h), |PrintHunk(h)|))
  {
    hide Trim, StripPrefix, ParseHunk, ParseUpdate, AddedLength, AddedText, PrintHeader, AllWhitespace, IsPath;
    MarkersDiffer(h.header.path);
    HeaderTrimmed(h);
    FirstAndRest(PrintHeader(h), [], rest);
    HeaderDecides([PrintHeader(h)] + [] + rest, m);
  }

  /** What the lines after an update header parse to, by what the lines behind
      its printed part parse to. */
  function UpdateResult(path: string, movePath: Option<string>, r: Result<(seq<Chunk>, nat)>, m: nat)
    : Result<(Hunk, nat)>
  {
    if r.Err? then Err(r.error)
    else if r.value.0 == [] then Err(InvalidHunk(EmptyUpdate(path), m))
    else Ok((UpdateFile(path, movePath, r.value.0), r.value.1))
  }

  lemma MovePrinted(path: string)
    ensures StripPrefix("*** Move to: " + path, MOVE_TO_MARKER) == Some(path)
  {
  }

  lemma MoveTaken(path: string, movePath: Option<string>, rest: seq<string>, m: nat)
    requires movePath.None? && rest != [] ==> !HasPrefix(rest[0], "*** Move to: ")
    ensures var k := |PrintMove(movePath)|;
            ParseUpdate(path, PrintMove(movePath) + rest, m)
            == UpdateResult(path, movePath, Prepend([], k, ParseChunks(rest, m + 1 + k, true)), m)
  {
    hide ParseChunks;
    var body := PrintMove(movePath) + rest;
    var r := ParseChunks(rest, m + 1 + |PrintMove(movePath)|, true);
    assert r.Ok? ==> [] + r.value.0 == r.value.0;
    if movePath.Some? {
      MovePrinted(movePath.value);
      assert body[0] == "*** Move to: " + movePath.value && body[1..] == rest;
    } else {
      assert body == rest && body[0..] == rest;
      assert rest != [] ==> StripPrefix(rest[0], MOVE_TO_MARKER).None?;
    }
  }

  /** Parsing an update goes on behind its printed part. */
  lemma UpdateInFront(h: HunkSource, rest: seq<string>, m: nat)
    requires h.UpdateSource? && Fit(h.items, true, false)
    requires IsOpen(h.items, false) && rest != [] ==> EndsDiff(rest[0])
    requires h.movePath.None? && h.items == [] && rest != [] ==> !HasPrefix(rest[0], "*** Move to: ")
    ensures var k := |PrintRest(h)|;
            var more := ParseChunks(rest, m + 1 + k, ItemsMeaning(h.items) == []);
            ParseUpdate(h.header.path, PrintRest(h) + rest, m)
            == UpdateResult(h.header.path, h.movePath, Prepend(ItemsMeaning(h.items), k, more), m)
  {
    hide ParseUpdate, ParseChunks, PrintMove, PrintItems, ItemsMeaning, Prepend, EndsDiff, UpdateResult, HasPrefix;
    var printed, k := PrintItems(h.items), |PrintMove(h.movePath)|;
    var more := ParseChunks(rest, m + 1 + k + |printed|, ItemsMeaning(h.items) == []);
    ItemsInFront(h.items, rest, m + 1 + k, true, false);
    if h.movePath.None? {
      ItemsAreNoMove(h.items, rest);
    }
    MoveTaken(h.header.path, h.movePath, printed + rest, m);
    PrependTwice([], k, ItemsMeaning(h.items), |printed|, more);
    assert PrintRest(h) + rest == PrintMove(h.movePath) + (printed + rest);
    assert [] + ItemsMeaning(h.items) == ItemsMeaning(h.items);
  }

  lemma ItemsAreNoMove(items: seq<Item>, rest: seq<string>)
    requires Fit(items, true, false)
    requires items == [] && rest != [] ==> !HasPrefix(rest[0], "*** Move to: ")
    ensures var lines := PrintItems(items) + rest; lines != [] ==> !HasPrefix(lines[0], "*** Move to: ")
  {
    hide IsPrintedDiff, PrintChunk, IsChunk, AllWhitespace;
    if items == [] {
      assert PrintItems(items) + rest == rest;
    } else if items[0].Blank? {
      MoveIsNotBlank(items[0].line);
    } else {
      var c, more := items[0].chunk, PrintItems(items[1..]) + rest;
      ChunkStartFacts(c, true, more);
      ChunkPrints(c);
      assert PrintItems(items) + rest == PrintChunk(c) + more;
    }
  }

  lemma ChunkPrints(c: ChunkSource)
    requires IsChunk(c, true)
    ensures PrintChunk(c) != []
  {
  }

  lemma MoveIsNotBlank(line: string)
    ensures HasPrefix(line, "*** Move to: ") ==> !AllWhitespace(line)
  {
    if HasPrefix(line, "*** Move to: ") {
      assert line[0] == "*** Move to: "[0] == '*';
    }
  }

  lemma StarsEndDiff(line: string)
    requires HasPrefix(line, "***")
    ensures !IsPrintedDiff(line) && StopsChunks(line) && !IsBlankLine(line)
  {
    assert line[0] == "***"[0] == '*';
    NotBlank(line);
    DiffLineIffPrinted(line);
  }

  lemma UpdateRoundTrip(h: HunkSource, rest: seq<string>, m: nat)
    requires h.UpdateSource? && Printable(h) && (rest == [] || EndsHunk(h, rest[0]))
    ensures ParseHunk(PrintHunk(h) + rest, m) == Ok((HunkMeaning(h), |PrintHunk(h)|))
  {
    hide Trim, StripPrefix, ParseHunk, ParseUpdate, ParseChunks, AddedLength, AddedText, PrintHeader, AllWhitespace;
    hide PrintRest, ItemsMeaning, IsPrintedDiff, StopsChunks, IsBlankLine, IsPath;
    var k := |PrintRest(h)|;
    MarkersDiffer(h.header.path);
    HeaderTrimmed(h);
    if rest != [] {
      StarsEndDiff(rest[0]);
    }
    NoItems(rest);
    ChunksStep(rest, m + 1 + k, ItemsMeaning(h.items) == []);
    PrependOk(ItemsMeaning(h.items), k);
    UpdateInFront(h, rest, m);
    FirstAndRest(PrintHeader(h), PrintRest(h), rest);
    HeaderDecides([PrintHeader(h)] + PrintRest(h) + rest, m);
  }

  lemma HunkRoundTrip(h: HunkSource, rest: seq<string>, m: nat)
    requires Printable(h) && (rest == [] || EndsHunk(h, rest[0]))
    ensures ParseHunk(PrintHunk(h) + rest, m) == Ok((HunkMeaning(h), |PrintHunk(h)|))
  {
    hide ParseHunk, PrintHunk, HunkMeaning, EndsHunk, Printable;
    match h
    case AddSource(_, _) => AddRoundTrip(h, rest, m);
    case DeleteSource(_) => DeleteRoundTrip(h, rest, m);
    case UpdateSource(_, _, _) => UpdateRoundTrip(h, rest, m);
  }

  lemma HunkInFrontOf(h: HunkSource, rest: seq<string>, m: nat)
    requires Printable(h) && (rest == [] || EndsHunk(h, rest[0]))
    ensures ParseHunks(PrintHunk(h) + rest, m)
            == PrependHunks([HunkMeaning(h)], ParseHunks(rest, m + |PrintHunk(h)|))
  {
    hide ParseHunk, ParseHunks, PrependHunks, PrintHunk, HunkMeaning, Printable, EndsHunk;
    var lines := PrintHunk(h) + rest;
    HunkRoundTrip(h, rest, m);
    PrintedHunkStarts(h);
    HunksStep(lines, m);
    assert lines[|PrintHunk(h)|..] == rest;
  }

  /** Parsing goes on behind printed hunks as if they were not there. */
  lemma {:induction false} HunksInFrontOf(hs: seq<HunkSource>, rest: seq<string>, m: nat)
    requires IsPatch(hs) && (hs != [] && rest != [] ==> EndsHunk(hs[|hs| - 1], rest[0]))
    ensures ParseHunks(PrintHunks(hs) + rest, m)
            == PrependHunks(HunksMeaning(hs), ParseHunks(rest, m + |PrintHunks(hs)|))
    decreases |hs|
  {
    hide ParseHunks, PrependHunks, PrintHunk, PrintHunks, HunkMeaning, HunksMeaning, Printable, EndsHunk;
    HunksInFront([], [], ParseHunks(rest, m));
    if hs == [] {
      NoHunks(rest);
    } else {
      var h, tail := hs[0], hs[1..];
      var more := PrintHunks(tail) + rest;
      assert hs == [h] + tail;
      PrintHunksCons(h, tail);
      NextEndsHunk(hs, rest);
      HunkInFrontOf(h, more, m);
      assert PrintHunks(hs) + rest == PrintHunk(h) + more;
      HunksInFrontOf(tail, rest, m + |PrintHunk(h)|);
      HunksInFront([HunkMeaning(h)], HunksMeaning(tail), ParseHunks(rest, m + |PrintHunks(hs)|));
    }
  }

  lemma NoHunks(rest: seq<string>)
    ensures HunksMeaning([]) == [] && PrintHunks([]) == [] && PrintHunks([]) + rest == rest
  {
  }

  lemma PrintedHunkStarts(h: HunkSource)
    ensures PrintHunk(h) != [] && PrintHunk(h)[0] == PrintHeader(h)
  {
  }

  lemma PrintHunksCons(h: HunkSource, tail: seq<HunkSource>)
    ensures PrintHunks([h] + tail) == PrintHunk(h) + PrintHunks(tail)
    ensures HunksMeaning([h] + tail) == [HunkMeaning(h)] + HunksMeaning(tail)
  {
    hide PrintHunk, HunkMeaning;
    assert ([h] + tail)[1..] == tail;
  }

  /** What follows the first hunk of a patch. */
  lemma NextEndsHunk(hs: seq<HunkSource>, rest: seq<string>)
    requires IsPatch(hs) && hs != [] && (rest != [] ==> EndsHunk(hs[|hs| - 1], rest[0]))
    ensures var more := PrintHunks(hs[1..]) + rest; more != [] ==> EndsHunk(hs[0], more[0])
  {
    hide PrintHunk, EndsHunk, Fit, IsPath, ItemsMeaning;
    var tail := hs[1..];
    if tail == [] {
      assert PrintHunks(tail) + rest == rest;
    } else {
      PrintedHunkStarts(tail[0]);
      assert PrintHunks(tail) + rest == PrintHunk(tail[0]) + (PrintHunks(tail[1..]) + rest);
      assert tail[0] == hs[1] && tail[0] in hs;
      HeaderEndsHunk(hs[0], tail[0]);
    }
  }

  lemma HeaderEndsHunk(h: HunkSource, next: HunkSource)
    requires AllWhitespace(next.header.before) && (h.UpdateSource? ==> next.header.before == "")
    ensures EndsHunk(h, PrintHeader(next))
  {
    hide IsOpen;
    HeaderStart(next);
    var line := PrintHeader(next);
    if next.header.before == "" {
      assert line == MarkerOf(next) + next.header.path + next.header.after;
      assert line[..4] == MarkerOf(next)[..4];
      assert line[4] == MarkerOf(next)[4] && "*** End of File"[4] == 'E';
      assert line[..3] == "***";
    } else {
      assert line[0] == next.header.before[0];
    }
  }

  lemma HeaderStart(h: HunkSource)
    ensures var marker := MarkerOf(h);
            |marker| > 4 && marker[0] == marker[1] == marker[2] == '*' && marker[4] in "ADU"
  {
  }

  // ------------------------------------------------------------------ theorems

  /** Parsing a printed patch gives back exactly its hunks. */
  lemma ParseUndoesPrint(hs: seq<HunkSource>, mode: ParseMode)
    requires IsPatch(hs)
    ensures ParseLines(PrintPatch(hs), mode) == Ok(Patch(HunksMeaning(hs), PrintPatch(hs)))
  {
    hide ParseHunks, PrintHunks, HunksMeaning, IsPatch;
    var lines := PrintPatch(hs);
    assert lines[1..|lines| - 1] == PrintHunks(hs) == PrintHunks(hs) + [];
    HunksInFrontOf(hs, [], 2);
    HunksStep([], 2 + |PrintHunks(hs)|);
    NothingBehind(HunksMeaning(hs));
  }

  // ------------------------------------------------------- every hunk is printable

  function RemovedLines(texts: seq<string>): seq<DiffLine> {
    seq(|texts|, i requires 0 <= i < |texts| => Removed(texts[i]))
  }

  function AddedLines(texts: seq<string>): seq<DiffLine> {
    seq(|texts|, i requires 0 <= i < |texts| => Added(texts[i]))
  }

  function CanonicalDiff(c: Chunk): seq<DiffLine> {
    RemovedLines(c.oldLines) + AddedLines(c.newLines)
  }

  function CanonicalChunk(c: Chunk): ChunkSource {
    ChunkSource(false, c.changeContext, CanonicalDiff(c), c.isEndOfFile)
  }

  function CanonicalItems(cs: seq<Chunk>): seq<Item> {
    if cs == [] then [] else [Change(CanonicalChunk(cs[0]))] + CanonicalItems(cs[1..])
  }

  /** One way to write a hunk down: every chunk has its `@@` line, and removed
      lines come before added ones. */
  function CanonicalSource(h: Hunk): HunkSource {
    match h
    case AddFile(path, contents) => AddSource(Header("", path, ""), Chomped(Segments(contents)))
    case DeleteFile(path) => DeleteSource(Header("", path, ""))
    case UpdateFile(path, movePath, chunks) => UpdateSource(Header("", path, ""), movePath, CanonicalItems(chunks))
  }

  function CanonicalSources(hs: seq<Hunk>): seq<HunkSource> {
    seq(|hs|, i requires 0 <= i < |hs| => CanonicalSource(hs[i]))
  }

  /** The hunks a patch can hold: headers have a path without blanks at the
      end, added files end in a line feed, every chunk changes or shows a line. */
  ghost predicate Expressible(h: Hunk) {
    && IsPath(h.path)
    && (h.AddFile? ==> h.contents == "" || h.contents[|h.contents| - 1] == '\n')
    && (h.UpdateFile? ==> h.chunks != [] && forall c | c in h.chunks :: c.oldLines != [] || c.newLines != [])
  }

  lemma OneMoreDiff(diff: seq<DiffLine>, d: DiffLine)
    ensures OldText(diff + [d]) == OldText(diff) + if d.Added? then [] else [ShownText(d)]
    ensures NewText(diff + [d]) == NewText(diff) + if d.Removed? then [] else [ShownText(d)]
  {
  }

  lemma {:induction false} RemovedText(removed: seq<string>)
    ensures OldText(RemovedLines(removed)) == removed && NewText(RemovedLines(removed)) == []
  {
    if removed != [] {
      var init, last := removed[..|removed| - 1], removed[|removed| - 1];
      RemovedText(init);
      OneMoreDiff(RemovedLines(init), Removed(last));
      hide OldText, NewText;
      assert RemovedLines(removed) == RemovedLines(init) + [Removed(last)];
      assert removed == init + [last];
    }
  }

  lemma {:induction false} CanonicalText(removed: seq<string>, added: seq<string>)
    ensures var diff := RemovedLines(removed) + AddedLines(added);
            OldText(diff) == removed && NewText(diff) == added
    decreases |added|
  {
    hide OldText, NewText;
    var diff := RemovedLines(removed) + AddedLines(added);
    if added == [] {
      RemovedText(removed);
      assert diff == RemovedLines(removed);
    } else {
      var init, last := added[..|added| - 1], added[|added| - 1];
      CanonicalText(removed, init);
      OneMoreDiff(RemovedLines(removed) + AddedLines(init), Added(last));
      assert diff == RemovedLines(removed) + AddedLines(init) + [Added(last)];
      assert added == init + [last];
    }
  }

  lemma ChompedCons(line: string, segments: seq<string>)
    ensures Chomped([line + "\n"] + segments) == [line] + Chomped(segments)
  {
  }

  lemma NothingChomped()
    ensures Chomped(Segments("")) == []
  {
  }

  lemma LineAndRest(s: string) returns (line: string, rest: string)
    requires s != "" && s[|s| - 1] == '\n'
    ensures |rest| < |s| && (rest == "" || rest[|rest| - 1] == '\n')
    ensures s == line + ("\n" + rest) && Segments(s) == [line + "\n"] + Segments(rest)
  {
    hide Segments, IsLine, FirstNewline;
    NewlineExists(s);
    FirstLineOf(s);
    var n := FirstNewline(s);
    line, rest := s[..n], s[n + 1..];
  }

  lemma {:induction false} UnlinesOfChomped(s: string)
    requires s == "" || s[|s| - 1] == '\n'
    ensures Unlines(Chomped(Segments(s))) == s
    decreases |s|
  {
    hide Unlines, Chomped, Segments, IsLine;
    if s == "" {
      NothingChomped();
      UnlinesEmpty();
    } else {
      var line, rest := LineAndRest(s);
      UnlinesOfChomped(rest);
      ChompedCons(line, Segments(rest));
      UnlinesCons(line, Chomped(Segments(rest)));
    }
  }

  lemma {:induction false} CanonicalItemsFit(cs: seq<Chunk>, first: bool, open: bool)
    requires forall c | c in cs :: c.oldLines != [] || c.newLines != []
    ensures Fit(CanonicalItems(cs), first, open) && ItemsMeaning(CanonicalItems(cs)) == cs
    decreases |cs|
  {
    hide CanonicalDiff, OldText, NewText, PrintDiffLine;
    if cs != [] {
      var c := cs[0];
      CanonicalItemsFit(cs[1..], false, !c.isEndOfFile);
      CanonicalDiffMeans(c);
      assert CanonicalItems(cs)[1..] == CanonicalItems(cs[1..]);
      assert cs == [c] + cs[1..];
    }
  }

  lemma CanonicalDiffMeans(c: Chunk)
    ensures OldText(CanonicalDiff(c)) == c.oldLines && NewText(CanonicalDiff(c)) == c.newLines
    ensures |CanonicalDiff(c)| == |c.oldLines| + |c.newLines|
  {
    CanonicalText(c.oldLines, c.newLines);
  }

  lemma CanonicalMeans(h: Hunk)
    requires Expressible(h)
    ensures Printable(CanonicalSource(h)) && HunkMeaning(CanonicalSource(h)) == h
    ensures CanonicalSource(h).header.before == ""
  {
    hide Unlines, Chomped, Segments, CanonicalItems, ItemsMeaning, Fit;
    if h.AddFile? {
      UnlinesOfChomped(h.contents);
    } else if h.UpdateFile? {
      CanonicalItemsFit(h.chunks, true, false);
    }
  }

  /** Every expressible list of hunks can be printed, and is what its print
      parses to. */
  lemma EveryExpressiblePatchRoundTrips(hunks: seq<Hunk>, mode: ParseMode)
    requires forall h | h in hunks :: Expressible(h)
    ensures var lines := PrintPatch(CanonicalSources(hunks));
            ParseLines(lines, mode) == Ok(Patch(hunks, lines))
  {
    hide Expressible, Printable, PrintPatch, ParseLines, HunkMeaning, CanonicalSource;
    var hs := CanonicalSources(hunks);
    forall i | 0 <= i < |hunks|
      ensures Printable(hs[i]) && HunkMeaning(hs[i]) == hunks[i] && hs[i].header.before == ""
    {
      CanonicalMeans(hunks[i]);
    }
    assert HunksMeaning(hs) == hunks;
    ParseUndoesPrint(hs, mode);
  }

  // --------------------------------------------------------------------- text

  /** A line that `str::lines` gives back unchanged. */
  predicate IsCleanLine(line: string) {
    IsLine(line) && (line == "" || line[|line| - 1] != '\r')
  }

  /** Lines end in a line feed, some with a carriage return before it. */
  function LineEnd(carriage: bool): string {
    if carriage then "\r\n" else "\n"
  }

  /** The lines as a text: line `i` ends as `carriages[i]` says, the last does not. */
  function JoinLines(lines: seq<string>, carriages: seq<bool>): string
    requires |lines| == |carriages| + 1
    decreases |carriages|
  {
    if carriages == [] then lines[0]
    else lines[0] + (LineEnd(carriages[0]) + JoinLines(lines[1..], carriages[1..]))
  }

  lemma CleanLineIsKept(line: string, carriage: bool)
    requires IsCleanLine(line)
    ensures LineOf(line + LineEnd(carriage)) == line
  {
    var segment := line + LineEnd(carriage);
    if carriage {
      assert Chomp(segment) == line + "\r";
      assert (line + "\r")[..|line|] == line;
    } else {
      assert Chomp(segment) == line;
    }
  }

  lemma LinesOfCons(segment: string, segments: seq<string>)
    ensures LinesOf([segment] + segments) == [LineOf(segment)] + LinesOf(segments)
  {
    hide LineOf;
  }

  lemma FirstLineSplit(line: string, carriage: bool, rest: string)
    requires IsCleanLine(line)
    ensures LinesOf(Segments(line + (LineEnd(carriage) + rest))) == [line] + LinesOf(Segments(rest))
  {
    var content := if carriage then line + "\r" else line;
    assert IsLine(content);
    hide Segments, LinesOf, IsCleanLine;
    assert content + "\n" == line + LineEnd(carriage);
    assert content + ("\n" + rest) == line + (LineEnd(carriage) + rest);
    SegmentsOfLine(content, rest);
    CleanLineIsKept(line, carriage);
    LinesOfCons(content + "\n", Segments(rest));
  }

  lemma {:induction false} SplitJoined(lines: seq<string>, carriages: seq<bool>)
    requires |lines| == |carriages| + 1
    requires (forall l | l in lines :: IsCleanLine(l)) && lines[|carriages|] != ""
    ensures LinesOf(Segments(JoinLines(lines, carriages))) == lines
    decreases |carriages|
  {
    hide LinesOf, Segments;
    if carriages == [] {
      LineIsOneSegment(lines[0]);
      assert lines == [lines[0]];
    } else {
      hide IsCleanLine, LineEnd;
      assert lines[0] in lines;
      SplitJoined(lines[1..], carriages[1..]);
      FirstLineSplit(lines[0], carriages[0], JoinLines(lines[1..], carriages[1..]));
    }
  }

  lemma LineIsOneSegment(line: string)
    requires IsLine(line) && line != ""
    ensures LinesOf(Segments(line)) == [line]
  {
  }

  lemma {:induction false} JoinedEnds(lines: seq<string>, carriages: seq<bool>)
    requires |lines| == |carriages| + 1 && lines[|carriages|] != ""
    ensures var text, last := JoinLines(lines, carriages), lines[|carriages|];
            && text != "" && text[|text| - 1] == last[|last| - 1]
            && (lines[0] != "" ==> text[0] == lines[0][0])
    decreases |carriages|
  {
    if carriages != [] {
      JoinedEnds(lines[1..], carriages[1..]);
    }
  }

  lemma JoinedTrimmed(lines: seq<string>, carriages: seq<bool>, before: string, after: string)
    requires |lines| == |carriages| + 1 && AllWhitespace(before) && AllWhitespace(after)
    requires lines[0] == "*** Begin Patch" && lines[|carriages|] == "*** End Patch"
    ensures Trim(before + JoinLines(lines, carriages) + after) == JoinLines(lines, carriages)
  {
    hide Trim, JoinLines, AllWhitespace, IsWhitespace;
    MarkersAreClean();
    var text := JoinLines(lines, carriages);
    JoinedEnds(lines, carriages);
    TrimmedAlready(text);
    TrimPadded(before, text, after);
  }

  /** The same for the text of the patch, whatever its line ends and the white
      space around it. */
  lemma ParseUndoesPrintAsText(
      hs: seq<HunkSource>, carriages: seq<bool>, before: string, after: string, mode: ParseMode)
    requires IsPatch(hs) && |carriages| == |PrintHunks(hs)| + 1 && AllWhitespace(before) && AllWhitespace(after)
    requires forall l | l in PrintHunks(hs) :: IsCleanLine(l)
    ensures var lines := PrintPatch(hs);
            var text := before + JoinLines(lines, carriages) + after;
            && PatchLines(text) == lines
            && ParseLines(PatchLines(text), mode) == Ok(Patch(HunksMeaning(hs), lines))
  {
    ParseUndoesPrint(hs, mode);
    MarkersAreClean();
    hide PrintHunks, ParseLines, HunksMeaning, IsPatch, Segments, Trim, LinesOf, IsCleanLine, JoinLines, AllWhitespace;
    var lines := PrintPatch(hs);
    SplitJoined(lines, carriages);
    JoinedTrimmed(lines, carriages, before, after);
  }

  lemma MarkersAreClean()
    ensures IsCleanLine("*** Begin Patch") && IsCleanLine("*** End Patch")
    ensures "*** Begin Patch"[0] == '*' && "*** End Patch"[12] == 'h' && !IsWhitespace('*') && !IsWhitespace('h')
  {
  }
}
