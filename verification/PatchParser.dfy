/** Parsing an apply-patch text into hunks
    (code-rs/apply-patch/src/parser.rs).  Each parsing function says what a
    prefix of the lines means; the methods are the program's loops. */
module PatchParser {
  import opened Text
  import opened Lines

  const BEGIN_PATCH_MARKER := "*** Begin Patch"
  const END_PATCH_MARKER := "*** End Patch"
  const ADD_FILE_MARKER := "*** Add File: "
  const DELETE_FILE_MARKER := "*** Delete File: "
  const UPDATE_FILE_MARKER := "*** Update File: "
  const MOVE_TO_MARKER := "*** Move to: "
  const EOF_MARKER := "*** End of File"
  const CHANGE_CONTEXT_MARKER := "@@ "
  const EMPTY_CHANGE_CONTEXT_MARKER := "@@"

  /** The error messages, with the text they quote. */
  datatype Problem =
    | FirstLineIsNotBegin
    | LastLineIsNotEnd
    | NoLines
    | UnexpectedLine(line: string)
    | MissingContext(line: string)
    | EmptyUpdate(path: string)
    | BadHeader(line: string)

  datatype ParseError =
    | InvalidPatch(message: Problem)
    | InvalidHunk(message: Problem, lineNumber: nat)

  datatype Result<+T> = Ok(value: T) | Err(error: ParseError)

  datatype Chunk = Chunk(
    changeContext: Option<string>,
    oldLines: seq<string>,
    newLines: seq<string>,
    isEndOfFile: bool)

  datatype Hunk =
    | AddFile(path: string, contents: string)
    | DeleteFile(path: string)
    | UpdateFile(path: string, movePath: Option<string>, chunks: seq<Chunk>)

  datatype ParseMode = Strict | Lenient

  /** The hunks of a patch and its text without the heredoc around it. */
  datatype Patch = Patch(hunks: seq<Hunk>, lines: seq<string>)

  // -------------------------------------------------------------- diff lines

  predicate IsDiffLine(line: string) {
    line == "" || line[0] == ' ' || line[0] == '+' || line[0] == '-'
  }

  /** How many lines at the front are diff lines. */
  function DiffLength(lines: seq<string>): (n: nat)
    ensures n <= |lines|
    ensures forall i | 0 <= i < n :: IsDiffLine(lines[i])
    ensures n < |lines| ==> !IsDiffLine(lines[n])
  {
    if lines == [] || !IsDiffLine(lines[0]) then 0 else 1 + DiffLength(lines[1..])
  }

  /** Context and removed lines. */
  function OldOf(line: string): seq<string> {
    if line == "" then [""] else if line[0] == ' ' || line[0] == '-' then [line[1..]] else []
  }

  /** Context and added lines. */
  function NewOf(line: string): seq<string> {
    if line == "" then [""] else if line[0] == ' ' || line[0] == '+' then [line[1..]] else []
  }

  function OldLines(diff: seq<string>): seq<string> {
    if diff == [] then [] else OldLines(diff[..|diff| - 1]) + OldOf(diff[|diff| - 1])
  }

  function NewLines(diff: seq<string>): seq<string> {
    if diff == [] then [] else NewLines(diff[..|diff| - 1]) + NewOf(diff[|diff| - 1])
  }

  // ------------------------------------------------------------------ chunks

  predicate HasContextLine(line: string) {
    line == EMPTY_CHANGE_CONTEXT_MARKER || HasPrefix(line, CHANGE_CONTEXT_MARKER)
  }

  function ContextOf(line: string): Option<string> {
    if line == EMPTY_CHANGE_CONTEXT_MARKER then None else StripPrefix(line, CHANGE_CONTEXT_MARKER)
  }

  /** The diff lines after the optional `@@` line, and a possible end-of-file
      marker; returns the chunk and how many lines it takes. */
  function ParseDiff(context: Option<string>, lines: seq<string>, lineNumber: nat): (r: Result<(Chunk, nat)>)
    ensures r.Ok? ==> 1 <= r.value.1 <= |lines|
    ensures r.Err? ==> r.error.InvalidHunk? && r.error.lineNumber == lineNumber + 1
  {
    var n := DiffLength(lines);
    if lines == [] || (n == 0 && lines[0] == EOF_MARKER) then Err(InvalidHunk(NoLines, lineNumber + 1))
    else if n == 0 then Err(InvalidHunk(UnexpectedLine(lines[0]), lineNumber + 1))
    else
      var atEof := n < |lines| && lines[n] == EOF_MARKER;
      Ok((Chunk(context, OldLines(lines[..n]), NewLines(lines[..n]), atEof), if atEof then n + 1 else n))
  }

  function ParseChunk(lines: seq<string>, lineNumber: nat, allowMissingContext: bool): (r: Result<(Chunk, nat)>)
    ensures r.Ok? ==> 1 <= r.value.1 <= |lines|
    ensures r.Err? ==> r.error.InvalidHunk? && lineNumber <= r.error.lineNumber <= lineNumber + 1
    ensures r.Err? && lines == [] ==> r.error.lineNumber == lineNumber
  {
    if lines == [] then Err(InvalidHunk(NoLines, lineNumber))
    else if HasContextLine(lines[0]) then
      var r := ParseDiff(ContextOf(lines[0]), lines[1..], lineNumber);
      if r.Ok? then Ok((r.value.0, r.value.1 + 1)) else r
    else if allowMissingContext then ParseDiff(None, lines, lineNumber)
    else Err(InvalidHunk(MissingContext(lines[0]), lineNumber))
  }

  lemma LineOfDiff(line: string)
    ensures line == "" ==> OldOf(line) == NewOf(line) == [""]
    ensures line != "" && line[0] == ' ' ==> OldOf(line) == NewOf(line) == [line[1..]]
    ensures line != "" && line[0] == '+' ==> OldOf(line) == [] && NewOf(line) == [line[1..]]
    ensures line != "" && line[0] == '-' ==> OldOf(line) == [line[1..]] && NewOf(line) == []
  {
  }

  lemma OneMoreDiffLine(diff: seq<string>, i: nat)
    requires i < |diff|
    ensures OldLines(diff[..i + 1]) == OldLines(diff[..i]) + OldOf(diff[i])
    ensures NewLines(diff[..i + 1]) == NewLines(diff[..i]) + NewOf(diff[i])
  {
    assert diff[..i + 1][..i] == diff[..i];
  }

  method ParseUpdateFileChunk(lines: seq<string>, lineNumber: nat, allowMissingContext: bool)
    returns (r: Result<(Chunk, nat)>)
    ensures r == ParseChunk(lines, lineNumber, allowMissingContext)
  {
    hide ParseDiff;
    if lines == [] {
      return Err(InvalidHunk(NoLines, lineNumber));
    }
    var context: Option<string> := None;
    var start := 1;
    if lines[0] != EMPTY_CHANGE_CONTEXT_MARKER {
      context := StripPrefix(lines[0], CHANGE_CONTEXT_MARKER);
      if context.None? {
        if !allowMissingContext {
          return Err(InvalidHunk(MissingContext(lines[0]), lineNumber));
        }
        start := 0;
      }
    }
    assert lines[0..] == lines;
    r := ParseDiffLines(context, lines[start..], lineNumber);
    if r.Ok? {
      return Ok((r.value.0, r.value.1 + start));
    }
  }

  /** What `ParseDiff` returns once the diff lines have been taken. */
  lemma DiffTaken(context: Option<string>, lines: seq<string>, lineNumber: nat)
    ensures var n, r := DiffLength(lines), ParseDiff(context, lines, lineNumber);
            && (lines == [] || (n == 0 && lines[0] == EOF_MARKER) ==> r == Err(InvalidHunk(NoLines, lineNumber + 1)))
            && (lines != [] && n == 0 && lines[0] != EOF_MARKER ==>
                  r == Err(InvalidHunk(UnexpectedLine(lines[0]), lineNumber + 1)))
            && (n > 0 ==>
                  var atEof := n < |lines| && lines[n] == EOF_MARKER;
                  r == Ok((Chunk(context, OldLines(lines[..n]), NewLines(lines[..n]), atEof),
                           if atEof then n + 1 else n)))
  {
  }

  /** The part of `parse_update_file_chunk` after the `@@` line. */
  method ParseDiffLines(context: Option<string>, lines: seq<string>, lineNumber: nat) returns (r: Result<(Chunk, nat)>)
    ensures r == ParseDiff(context, lines, lineNumber)
  {
    if lines == [] {
      return Err(InvalidHunk(NoLines, lineNumber + 1));
    }
    var oldLines: seq<string>, newLines: seq<string>, parsed := [], [], 0;
    ghost var n := DiffLength(lines);
    DiffTaken(context, lines, lineNumber);
    assert !IsDiffLine(EOF_MARKER);
    assert OldLines(lines[..0]) == [] && NewLines(lines[..0]) == [];
    hide ParseDiff, DiffLength, OldLines, NewLines, OldOf, NewOf;
    while parsed < |lines|
      invariant parsed <= n
      invariant oldLines == OldLines(lines[..parsed]) && newLines == NewLines(lines[..parsed])
    {
      var line := lines[parsed];
      assert IsDiffLine(line) <==> parsed < n;
      OneMoreDiffLine(lines, parsed);
      LineOfDiff(line);
      if line == EOF_MARKER {
        if parsed == 0 {
          return Err(InvalidHunk(NoLines, lineNumber + 1));
        }
        return Ok((Chunk(context, oldLines, newLines, true), parsed + 1));
      }
      if line == "" {
        oldLines := oldLines + [""];
        newLines := newLines + [""];
      } else if line[0] == ' ' {
        oldLines := oldLines + [line[1..]];
        newLines := newLines + [line[1..]];
      } else if line[0] == '+' {
        newLines := newLines + [line[1..]];
      } else if line[0] == '-' {
        oldLines := oldLines + [line[1..]];
      } else {
        if parsed == 0 {
          return Err(InvalidHunk(UnexpectedLine(line), lineNumber + 1));
        }
        break;
      }
      parsed := parsed + 1;
    }
    return Ok((Chunk(context, oldLines, newLines, false), parsed));
  }

  // ------------------------------------------------------------------- hunks

  predicate IsBlankLine(line: string) {
    Trim(line) == ""
  }

  predicate StopsChunks(line: string) {
    HasPrefix(line, "***")
  }

  /** The result with `chunks`, which took `n` lines, in front. */
  function Prepend(chunks: seq<Chunk>, n: nat, r: Result<(seq<Chunk>, nat)>): Result<(seq<Chunk>, nat)> {
    if r.Ok? then Ok((chunks + r.value.0, n + r.value.1)) else r
  }

  /** The chunks at the front of `lines`, with blank lines between them, up to
      the next header; returns them and how many lines they take. */
  function ParseChunks(lines: seq<string>, lineNumber: nat, first: bool): (r: Result<(seq<Chunk>, nat)>)
    ensures r.Ok? ==> r.value.1 <= |lines|
    ensures r.Err? ==> r.error.InvalidHunk? && lineNumber <= r.error.lineNumber <= lineNumber + |lines|
    decreases |lines|
  {
    if lines == [] then Ok(([], 0))
    else if IsBlankLine(lines[0]) then
      Prepend([], 1, ParseChunks(lines[1..], lineNumber + 1, first))
    else if StopsChunks(lines[0]) then Ok(([], 0))
    else
      var c := ParseChunk(lines, lineNumber, first);
      if c.Err? then Err(c.error)
      else
        Prepend([c.value.0], c.value.1, ParseChunks(lines[c.value.1..], lineNumber + c.value.1, false))
  }

  /** How `ParseChunks` goes on from its first line. */
  lemma ChunksStep(lines: seq<string>, m: nat, first: bool)
    ensures lines == [] ==> ParseChunks(lines, m, first) == Ok(([], 0))
    ensures lines != [] && IsBlankLine(lines[0]) ==>
              ParseChunks(lines, m, first) == Prepend([], 1, ParseChunks(lines[1..], m + 1, first))
    ensures lines != [] && !IsBlankLine(lines[0]) && StopsChunks(lines[0]) ==>
              ParseChunks(lines, m, first) == Ok(([], 0))
    ensures lines != [] && !IsBlankLine(lines[0]) && !StopsChunks(lines[0]) ==>
              var c := ParseChunk(lines, m, first);
              ParseChunks(lines, m, first) ==
                if c.Err? then Err(c.error)
                else Prepend([c.value.0], c.value.1, ParseChunks(lines[c.value.1..], m + c.value.1, false))
  {
  }

  predicate IsAddedLine(line: string) {
    HasPrefix(line, "+")
  }

  function AddedLength(lines: seq<string>): (n: nat)
    ensures n <= |lines|
    ensures forall i | 0 <= i < n :: IsAddedLine(lines[i])
    ensures n < |lines| ==> !IsAddedLine(lines[n])
  {
    if lines == [] || !IsAddedLine(lines[0]) then 0 else 1 + AddedLength(lines[1..])
  }

  function AddedOf(line: string): string {
    if line == "" then "" else line[1..] + "\n"
  }

  /** The contents of an added file. */
  function AddedText(lines: seq<string>): string {
    if lines == [] then "" else AddedText(lines[..|lines| - 1]) + AddedOf(lines[|lines| - 1])
  }

  /** The lines after an update header. */
  function ParseUpdate(path: string, body: seq<string>, lineNumber: nat): (r: Result<(Hunk, nat)>)
    ensures r.Ok? ==> r.value.1 <= |body|
    ensures r.Err? ==> r.error.InvalidHunk? && lineNumber <= r.error.lineNumber <= lineNumber + 1 + |body|
  {
    var movePath := if body == [] then None else StripPrefix(body[0], MOVE_TO_MARKER);
    var moved := if movePath.Some? then 1 else 0;
    var r := ParseChunks(body[moved..], lineNumber + 1 + moved, true);
    if r.Err? then Err(r.error)
    else if r.value.0 == [] then Err(InvalidHunk(EmptyUpdate(path), lineNumber))
    else Ok((UpdateFile(path, movePath, r.value.0), moved + r.value.1))
  }

  /** One hunk at the front of `lines`, and how many lines it takes. */
  function ParseHunk(lines: seq<string>, lineNumber: nat): (r: Result<(Hunk, nat)>)
    requires lines != []
    ensures r.Ok? ==> 1 <= r.value.1 <= |lines|
    ensures r.Err? ==> r.error.InvalidHunk? && lineNumber <= r.error.lineNumber <= lineNumber + |lines|
  {
    var header := Trim(lines[0]);
    var added := StripPrefix(header, ADD_FILE_MARKER);
    var deleted := StripPrefix(header, DELETE_FILE_MARKER);
    var updated := StripPrefix(header, UPDATE_FILE_MARKER);
    if added.Some? then
      var n := AddedLength(lines[1..]);
      Ok((AddFile(added.value, AddedText(lines[1..1 + n])), 1 + n))
    else if deleted.Some? then Ok((DeleteFile(deleted.value), 1))
    else if updated.Some? then
      var r := ParseUpdate(updated.value, lines[1..], lineNumber);
      if r.Ok? then Ok((r.value.0, 1 + r.value.1)) else r
    else Err(InvalidHunk(BadHeader(header), lineNumber))
  }

  /** What `ParseHunk` returns for each kind of header. */
  lemma HeaderDecides(lines: seq<string>, m: nat)
    requires lines != []
    ensures var header, r := Trim(lines[0]), ParseHunk(lines, m);
            var added, deleted := StripPrefix(header, ADD_FILE_MARKER), StripPrefix(header, DELETE_FILE_MARKER);
            var updated := StripPrefix(header, UPDATE_FILE_MARKER);
            && (added.Some? ==>
                  var n := AddedLength(lines[1..]);
                  r == Ok((AddFile(added.value, AddedText(lines[1..1 + n])), 1 + n)))
            && (added.None? && deleted.Some? ==> r == Ok((DeleteFile(deleted.value), 1)))
            && (added.None? && deleted.None? && updated.Some? ==>
                  var u := ParseUpdate(updated.value, lines[1..], m);
                  r == if u.Ok? then Ok((u.value.0, 1 + u.value.1)) else u)
  {
    hide Trim, StripPrefix, AddedLength, AddedText, ParseUpdate;
  }

  method ParseOneHunk(lines: seq<string>, lineNumber: nat) returns (r: Result<(Hunk, nat)>)
    requires lines != []
    ensures r == ParseHunk(lines, lineNumber)
  {
    hide Trim, ParseUpdate, AddedText, StripPrefix, AddedLength;
    var firstLine := Trim(lines[0]);
    var path := StripPrefix(firstLine, ADD_FILE_MARKER);
    if path.Some? {
      var contents, parsed := ParseAddedLines(lines);
      return Ok((AddFile(path.value, contents), parsed));
    }
    path := StripPrefix(firstLine, DELETE_FILE_MARKER);
    if path.Some? {
      return Ok((DeleteFile(path.value), 1));
    }
    path := StripPrefix(firstLine, UPDATE_FILE_MARKER);
    if path.Some? {
      r := ParseUpdateHunk(path.value, lines, lineNumber);
      return;
    }
    return Err(InvalidHunk(BadHeader(firstLine), lineNumber));
  }

  /** The branch for an add header. */
  method ParseAddedLines(lines: seq<string>) returns (contents: string, parsed: nat)
    requires lines != []
    ensures parsed == 1 + AddedLength(lines[1..]) && contents == AddedText(lines[1..parsed])
  {
    contents, parsed := "", 1;
    ghost var rest := lines[1..];
    assert AddedText(rest[..0]) == "";
    hide AddedText, AddedOf, AddedLength, StripPrefix, IsAddedLine;
    while parsed < |lines|
      invariant 1 <= parsed <= 1 + AddedLength(rest)
      invariant contents == AddedText(rest[..parsed - 1])
    {
      assert lines[parsed] == rest[parsed - 1];
      AddedStep(rest, parsed - 1);
      var added := StripPrefix(lines[parsed], "+");
      if added.None? {
        break;
      }
      contents := contents + (added.value + "\n");
      parsed := parsed + 1;
    }
    assert lines[1..parsed] == rest[..parsed - 1];
  }

  lemma AddedStep(rest: seq<string>, i: nat)
    requires i < |rest| && i <= AddedLength(rest)
    ensures StripPrefix(rest[i], "+").Some? <==> i < AddedLength(rest)
    ensures StripPrefix(rest[i], "+").Some? ==>
              AddedText(rest[..i + 1]) == AddedText(rest[..i]) + (StripPrefix(rest[i], "+").value + "\n")
  {
    hide AddedLength, AddedText;
    AddedTextStep(rest, i);
    assert IsAddedLine(rest[i]) <==> i < AddedLength(rest);
  }

  lemma AddedTextStep(lines: seq<string>, i: nat)
    requires i < |lines|
    ensures AddedText(lines[..i + 1]) == AddedText(lines[..i]) + AddedOf(lines[i])
  {
    assert lines[..i + 1][..i] == lines[..i];
  }

  /** The branch for an update header. */
  method ParseUpdateHunk(path: string, lines: seq<string>, lineNumber: nat) returns (r: Result<(Hunk, nat)>)
    requires lines != []
    ensures var u := ParseUpdate(path, lines[1..], lineNumber);
            r == if u.Ok? then Ok((u.value.0, 1 + u.value.1)) else u
  {
    hide ParseChunks;
    var remaining, parsed := lines[1..], 1;
    var movePath: Option<string> := None;
    if remaining != [] {
      movePath := StripPrefix(remaining[0], MOVE_TO_MARKER);
    }
    if movePath.Some? {
      remaining := remaining[1..];
      parsed := parsed + 1;
    }
    assert lines[1..][0..] == lines[1..];
    var chunks := ParseChunkList(remaining, lineNumber + parsed);
    if chunks.Err? {
      return Err(chunks.error);
    }
    if chunks.value.0 == [] {
      return Err(InvalidHunk(EmptyUpdate(path), lineNumber));
    }
    return Ok((UpdateFile(path, movePath, chunks.value.0), parsed + chunks.value.1));
  }

  /** The loop over the chunks of an update. */
  method ParseChunkList(lines: seq<string>, lineNumber: nat) returns (r: Result<(seq<Chunk>, nat)>)
    ensures r == ParseChunks(lines, lineNumber, true)
  {
    hide ParseChunk, ParseChunks, Trim, HasPrefix, Prepend;
    var remaining, parsed := lines, 0;
    ghost var whole := ParseChunks(lines, lineNumber, true);
    var chunks: seq<Chunk> := [];
    PrependTwice([], 0, [], 0, whole);
    while remaining != []
      invariant whole == Prepend(chunks, parsed, ParseChunks(remaining, lineNumber + parsed, chunks == []))
      decreases |remaining|
    {
      ChunksStep(remaining, lineNumber + parsed, chunks == []);
      if Trim(remaining[0]) == "" {
        PrependTwice(chunks, parsed, [], 1, ParseChunks(remaining[1..], lineNumber + parsed + 1, chunks == []));
        parsed := parsed + 1;
        assert chunks + [] == chunks;
        remaining := remaining[1..];
        continue;
      }
      if HasPrefix(remaining[0], "***") {
        break;
      }
      var c := ParseUpdateFileChunk(remaining, lineNumber + parsed, chunks == []);
      if c.Err? {
        PrependErr(chunks, parsed, c.error);
        return Err(c.error);
      }
      PrependTwice(chunks, parsed, [c.value.0], c.value.1,
                   ParseChunks(remaining[c.value.1..], lineNumber + parsed + c.value.1, false));
      chunks := chunks + [c.value.0];
      parsed := parsed + c.value.1;
      remaining := remaining[c.value.1..];
    }
    ChunksStep(remaining, lineNumber + parsed, chunks == []);
    PrependOk(chunks, parsed);
    return Ok((chunks, parsed));
  }

  lemma PrependOk(chunks: seq<Chunk>, n: nat)
    ensures Prepend(chunks, n, Ok(([], 0))) == Ok((chunks, n))
  {
    assert chunks + [] == chunks;
  }

  lemma PrependErr(chunks: seq<Chunk>, n: nat, e: ParseError)
    ensures Prepend(chunks, n, Err(e)) == Err(e)
  {
  }

  lemma PrependTwice(chunks: seq<Chunk>, n: nat, more: seq<Chunk>, k: nat, r: Result<(seq<Chunk>, nat)>)
    ensures Prepend(chunks, n, Prepend(more, k, r)) == Prepend(chunks + more, n + k, r)
    ensures Prepend([], 0, r) == r
  {
    if r.Ok? {
      assert chunks + (more + r.value.0) == chunks + more + r.value.0;
      assert [] + r.value.0 == r.value.0;
    }
  }

  function PrependHunks(hunks: seq<Hunk>, r: Result<seq<Hunk>>): Result<seq<Hunk>> {
    if r.Ok? then Ok(hunks + r.value) else r
  }

  /** All hunks of the lines between the markers. */
  function ParseHunks(lines: seq<string>, lineNumber: nat): (r: Result<seq<Hunk>>)
    ensures r.Err? ==> r.error.InvalidHunk? && lineNumber <= r.error.lineNumber <= lineNumber + |lines|
    decreases |lines|
  {
    if lines == [] then Ok([])
    else
      var h := ParseHunk(lines, lineNumber);
      if h.Err? then Err(h.error)
      else
        PrependHunks([h.value.0], ParseHunks(lines[h.value.1..], lineNumber + h.value.1))
  }

  // -------------------------------------------------------------- boundaries

  /** `check_patch_boundaries_strict`: the error, if any. */
  function CheckStrict(lines: seq<string>): (r: Option<ParseError>)
    ensures r.Some? ==> r.value.InvalidPatch?
    ensures r.None? ==> |lines| >= 2
  {
    if lines != [] && lines[0] == BEGIN_PATCH_MARKER && lines[|lines| - 1] == END_PATCH_MARKER then None
    else if lines != [] && lines[0] != BEGIN_PATCH_MARKER then Some(InvalidPatch(FirstLineIsNotBegin))
    else Some(InvalidPatch(LastLineIsNotEnd))
  }

  predicate IsHeredocStart(line: string) {
    line == "<<EOF" || line == "<<'EOF'" || line == "<<\"EOF\""
  }

  predicate EndsWithEof(line: string) {
    |line| >= 3 && line[|line| - 3..] == "EOF"
  }

  predicate IsHeredoc(lines: seq<string>) {
    |lines| >= 4 && IsHeredocStart(lines[0]) && EndsWithEof(lines[|lines| - 1])
  }

  /** The lines between which the hunks are, or the boundary error. */
  function Bounded(lines: seq<string>, mode: ParseMode): (r: Result<seq<string>>)
    ensures r.Ok? ==> CheckStrict(r.value) == None && |r.value| <= |lines|
    ensures r.Err? ==> r.error.InvalidPatch?
  {
    var e := CheckStrict(lines);
    if e.None? then Ok(lines)
    else if mode.Lenient? && IsHeredoc(lines) then
      var inner := lines[1..|lines| - 1];
      var f := CheckStrict(inner);
      if f.None? then Ok(inner) else Err(f.value)
    else Err(e.value)
  }

  /** Parsing the lines of a patch. */
  function ParseLines(lines: seq<string>, mode: ParseMode): (r: Result<Patch>)
    ensures r.Err? && r.error.InvalidHunk? ==> 2 <= r.error.lineNumber <= |lines|
  {
    var b := Bounded(lines, mode);
    if b.Err? then Err(b.error)
    else
      var r := ParseHunks(b.value[1..|b.value| - 1], 2);
      if r.Ok? then Ok(Patch(r.value, b.value)) else Err(r.error)
  }

  /** `str::lines`: a carriage return before the line feed goes too. */
  function LineOf(segment: string): string {
    var line := Chomp(segment);
    if |line| < |segment| && line != "" && line[|line| - 1] == '\r' then line[..|line| - 1] else line
  }

  function LinesOf(segments: seq<string>): (r: seq<string>)
    ensures |r| == |segments| && forall i | 0 <= i < |r| :: r[i] == LineOf(segments[i])
  {
    seq(|segments|, i requires 0 <= i < |segments| => LineOf(segments[i]))
  }

  function PatchLines(text: string): seq<string> {
    LinesOf(Segments(Trim(text)))
  }

  method CheckBoundaries(lines: seq<string>, mode: ParseMode) returns (r: Result<seq<string>>)
    ensures r == Bounded(lines, mode)
  {
    hide CheckStrict, IsHeredocStart, EndsWithEof;
    var e := CheckStrict(lines);
    if e.None? {
      return Ok(lines);
    }
    if mode.Strict? || |lines| < 2 {
      return Err(e.value);
    }
    if !(IsHeredocStart(lines[0]) && EndsWithEof(lines[|lines| - 1]) && |lines| >= 4) {
      return Err(e.value);
    }
    var inner := lines[1..|lines| - 1];
    var f := CheckStrict(inner);
    if f.Some? {
      return Err(f.value);
    }
    return Ok(inner);
  }

  method ParsePatchText(text: string, mode: ParseMode) returns (r: Result<Patch>)
    ensures r == ParseLines(PatchLines(text), mode)
  {
    hide ParseHunks, CheckStrict, Bounded, PatchLines;
    var bounded := CheckBoundaries(PatchLines(text), mode);
    if bounded.Err? {
      return Err(bounded.error);
    }
    var lines := bounded.value;
    var hunks := ParseAllHunks(lines[1..|lines| - 1]);
    if hunks.Err? {
      return Err(hunks.error);
    }
    return Ok(Patch(hunks.value, lines));
  }

  /** The main loop. */
  method ParseAllHunks(lines: seq<string>) returns (r: Result<seq<Hunk>>)
    ensures r == ParseHunks(lines, 2)
  {
    hide ParseHunk, ParseHunks, PrependHunks;
    var hunks: seq<Hunk> := [];
    var remaining, lineNumber := lines, 2;
    ghost var all := ParseHunks(remaining, 2);
    HunksInFront([], [], all);
    while remaining != []
      invariant all == PrependHunks(hunks, ParseHunks(remaining, lineNumber))
      decreases |remaining|
    {
      var h := ParseOneHunk(remaining, lineNumber);
      HunksStep(remaining, lineNumber);
      if h.Err? {
        ErrorInFront(hunks, h.error);
        return Err(h.error);
      }
      HunksInFront(hunks, [h.value.0], ParseHunks(remaining[h.value.1..], lineNumber + h.value.1));
      hunks := hunks + [h.value.0];
      lineNumber := lineNumber + h.value.1;
      remaining := remaining[h.value.1..];
    }
    HunksStep(remaining, lineNumber);
    NothingBehind(hunks);
    return Ok(hunks);
  }

  /** How `ParseHunks` goes on from its first hunk. */
  lemma HunksStep(lines: seq<string>, lineNumber: nat)
    ensures lines == [] ==> ParseHunks(lines, lineNumber) == Ok([])
    ensures lines != [] ==>
              var h := ParseHunk(lines, lineNumber);
              ParseHunks(lines, lineNumber) ==
                if h.Err? then Err(h.error)
                else PrependHunks([h.value.0], ParseHunks(lines[h.value.1..], lineNumber + h.value.1))
  {
  }

  lemma ErrorInFront(hunks: seq<Hunk>, e: ParseError)
    ensures PrependHunks(hunks, Err(e)) == Err(e)
  {
  }

  lemma NothingBehind(hunks: seq<Hunk>)
    ensures PrependHunks(hunks, Ok([])) == Ok(hunks)
  {
    assert hunks + [] == hunks;
  }

  lemma HunksInFront(hunks: seq<Hunk>, more: seq<Hunk>, r: Result<seq<Hunk>>)
    ensures PrependHunks(hunks, PrependHunks(more, r)) == PrependHunks(hunks + more, r)
    ensures PrependHunks([], r) == r
  {
    if r.Ok? {
      assert hunks + (more + r.value) == hunks + more + r.value;
      assert [] + r.value == r.value;
    }
  }

  // ------------------------------------------------------------ strict, lenient

  /** Lenient parsing differs from strict parsing exactly on a heredoc around
      a text with the right markers or on one whose inner markers are wrong in
      another way, and there it is strict parsing of the inner lines. */
  lemma LenientIsStrict(lines: seq<string>)
    ensures CheckStrict(lines).None? || !IsHeredoc(lines) ==> ParseLines(lines, Lenient) == ParseLines(lines, Strict)
    ensures IsHeredoc(lines) ==> ParseLines(lines, Lenient) == ParseLines(lines[1..|lines| - 1], Strict)
  {
    hide ParseHunks;
    if IsHeredoc(lines) {
      assert lines[0] != BEGIN_PATCH_MARKER;
    }
  }

  // -------------------------------------------------------------- accounting

  lemma {:induction false} DiffLengthOfPrefix(lines: seq<string>, k: nat)
    requires k <= |lines|
    ensures DiffLength(lines[..k]) == if DiffLength(lines) < k then DiffLength(lines) else k
  {
    if k > 0 && IsDiffLine(lines[0]) {
      DiffLengthOfPrefix(lines[1..], k - 1);
      assert lines[..k][1..] == lines[1..][..k - 1];
    }
  }

  lemma ChunkIgnoresNumber(lines: seq<string>, m: nat, n: nat, first: bool)
    requires ParseChunk(lines, m, first).Ok?
    ensures ParseChunk(lines, n, first) == ParseChunk(lines, m, first)
  {
  }

  lemma {:induction false} ChunksFromTheirLines(lines: seq<string>, m: nat, n: nat, first: bool)
    requires ParseChunks(lines, m, first).Ok?
    ensures var k := ParseChunks(lines, m, first).value.1;
            ParseChunks(lines[..k], n, first) == ParseChunks(lines, m, first)
    decreases |lines|
  {
    hide ParseChunk, ParseChunks, IsBlankLine, StopsChunks;
    var k := ParseChunks(lines, m, first).value.1;
    assert lines[..0] == [];
    ChunksStep(lines, m, first);
    ChunksStep(lines[..k], n, first);
    if lines == [] {
    } else if IsBlankLine(lines[0]) {
      ChunksFromTheirLines(lines[1..], m + 1, n + 1, first);
      assert lines[..k][1..] == lines[1..][..k - 1];
    } else if !StopsChunks(lines[0]) {
      var c := ParseChunk(lines, m, first).value.1;
      ChunkIgnoresNumber(lines, m, n, first);
      ChunksFromTheirLines(lines[c..], m + c, n + c, false);
      ChunkUntouchedByTail(lines, n, first, c, k);
      assert lines[..k][c..] == lines[c..][..k - c];
    }
  }

  /** Cutting lines off behind a chunk does not change it. */
  lemma ChunkUntouchedByTail(lines: seq<string>, n: nat, first: bool, c: nat, k: nat)
    requires ParseChunk(lines, n, first).Ok? && ParseChunk(lines, n, first).value.1 == c <= k <= |lines|
    ensures ParseChunk(lines[..k], n, first) == ParseChunk(lines, n, first)
  {
    if HasContextLine(lines[0]) {
      DiffUntouchedByTail(ContextOf(lines[0]), lines[1..], n, k - 1);
      assert lines[..k][1..] == lines[1..][..k - 1];
    } else {
      DiffUntouchedByTail(None, lines, n, k);
    }
  }

  lemma DiffUntouchedByTail(context: Option<string>, lines: seq<string>, n: nat, k: nat)
    requires ParseDiff(context, lines, n).Ok? && ParseDiff(context, lines, n).value.1 <= k <= |lines|
    ensures ParseDiff(context, lines[..k], n) == ParseDiff(context, lines, n)
  {
    DiffLengthOfPrefix(lines, k);
    assert lines[..k][..DiffLength(lines)] == lines[..DiffLength(lines)];
  }

  lemma {:induction false} AddedLengthOfPrefix(lines: seq<string>, k: nat)
    requires k <= |lines|
    ensures AddedLength(lines[..k]) == if AddedLength(lines) < k then AddedLength(lines) else k
  {
    if k > 0 && IsAddedLine(lines[0]) {
      AddedLengthOfPrefix(lines[1..], k - 1);
      assert lines[..k][1..] == lines[1..][..k - 1];
    }
  }

  lemma UpdateNeedsLines(path: string, m: nat)
    ensures ParseUpdate(path, [], m).Err?
  {
  }

  lemma UpdateFromItsLines(path: string, body: seq<string>, m: nat, n: nat)
    requires ParseUpdate(path, body, m).Ok?
    ensures ParseUpdate(path, body[..ParseUpdate(path, body, m).value.1], n) == ParseUpdate(path, body, m)
  {
    hide ParseChunk, ParseChunks;
    UpdateNeedsLines(path, m);
    var moved := if StripPrefix(body[0], MOVE_TO_MARKER).Some? then 1 else 0;
    ChunksFromTheirLines(body[moved..], m + 1 + moved, n + 1 + moved, true);
    var k := ParseUpdate(path, body, m).value.1;
    ChunksStep(body[moved..][..0], n + 1 + moved, true);
    assert body[..k][moved..] == body[moved..][..k - moved];
  }

  /** A hunk is determined by the lines it takes, wherever they stand. */
  lemma HunkFromItsLines(lines: seq<string>, m: nat, n: nat)
    requires lines != [] && ParseHunk(lines, m).Ok?
    ensures var k := ParseHunk(lines, m).value.1;
            k > 0 && ParseHunk(lines[..k], n) == ParseHunk(lines, m)
  {
    hide ParseUpdate, Trim, AddedText, StripPrefix, AddedLength;
    var k := ParseHunk(lines, m).value.1;
    var header := Trim(lines[0]);
    assert lines[..k][1..] == lines[1..][..k - 1];
    AddedLengthOfPrefix(lines[1..], k - 1);
    if StripPrefix(header, ADD_FILE_MARKER).None? && StripPrefix(header, DELETE_FILE_MARKER).None? {
      UpdateFromItsLines(StripPrefix(header, UPDATE_FILE_MARKER).value, lines[1..], m, n);
    } else {
      assert lines[..k][1..k] == lines[1..k];
    }
  }

  function Concat(parts: seq<seq<string>>): seq<string> {
    if parts == [] then [] else parts[0] + Concat(parts[1..])
  }

  /** The spans of the hunks partition the body exactly, and each span on its
      own parses to its hunk. */
  lemma {:induction false} HunksPartitionTheBody(lines: seq<string>, m: nat) returns (spans: seq<seq<string>>)
    requires ParseHunks(lines, m).Ok?
    ensures Concat(spans) == lines && |spans| == |ParseHunks(lines, m).value|
    ensures forall i | 0 <= i < |spans| ::
              spans[i] != [] && ParseHunk(spans[i], m) == Ok((ParseHunks(lines, m).value[i], |spans[i]|))
    decreases |lines|
  {
    hide ParseHunk;
    spans := [];
    if lines != [] {
      var k := ParseHunk(lines, m).value.1;
      HunkFromItsLines(lines, m, m);
      var rest := HunksPartitionTheBody(lines[k..], m + k);
      forall i | 0 <= i < |rest|
        ensures ParseHunk(rest[i], m) == ParseHunk(rest[i], m + k)
      {
        HunkFromItsLines(rest[i], m + k, m);
        assert rest[i][..|rest[i]|] == rest[i];
      }
      spans := [lines[..k]] + rest;
      assert spans[1..] == rest;
      assert lines == lines[..k] + lines[k..];
    }
  }
}
