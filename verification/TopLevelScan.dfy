/** The scanner that splits generated TypeScript at top level, and the filter
    for the arms of a union type built on it
    (code-rs/app-server-protocol/src/export.rs). */
module TopLevelScan {
  import opened Text
  import opened Trimming

  /** Nesting depths and the string literal being read, if any. */
  datatype ScanState = ScanState(
    brace: nat, bracket: nat, paren: nat, angle: nat,
    quote: Option<char>, escape: bool)
  {
    predicate IsTopLevel() {
      brace == 0 && bracket == 0 && paren == 0 && angle == 0
    }

    predicate InString() {
      quote.Some?
    }
  }

  const START := ScanState(0, 0, 0, 0, None, false)

  function Down(depth: nat): nat {
    if depth > 0 then depth - 1 else 0
  }

  function Observe(s: ScanState, c: char): ScanState {
    if s.quote.Some? then
      if s.escape then s.(escape := false)
      else if c == '\\' then s.(escape := true)
      else if c == s.quote.value then s.(quote := None)
      else s
    else if c == '"' || c == '\'' then s.(quote := Some(c))
    else if c == '{' then s.(brace := s.brace + 1)
    else if c == '}' then s.(brace := Down(s.brace))
    else if c == '[' then s.(bracket := s.bracket + 1)
    else if c == ']' then s.(bracket := Down(s.bracket))
    else if c == '(' then s.(paren := s.paren + 1)
    else if c == ')' then s.(paren := Down(s.paren))
    else if c == '<' then s.(angle := s.angle + 1)
    else if c == '>' then s.(angle := Down(s.angle))
    else s
  }

  /** `ScanState::observe`. */
  class Scanner {
    var state: ScanState

    constructor ()
      ensures state == START
    {
      state := START;
    }

    method ObserveChar(c: char)
      modifies this
      ensures state == Observe(old(state), c)
    {
      if state.quote.Some? {
        if state.escape {
          state := state.(escape := false);
          return;
        }
        if c == '\\' {
          state := state.(escape := true);
          return;
        }
        if c == state.quote.value {
          state := state.(quote := None);
        }
        return;
      }
      match c {
        case '"' => state := state.(quote := Some(c));
        case '\'' => state := state.(quote := Some(c));
        case '{' => state := state.(brace := state.brace + 1);
        case '}' => state := state.(brace := Down(state.brace));
        case '[' => state := state.(bracket := state.bracket + 1);
        case ']' => state := state.(bracket := Down(state.bracket));
        case '(' => state := state.(paren := state.paren + 1);
        case ')' => state := state.(paren := Down(state.paren));
        case '<' => state := state.(angle := state.angle + 1);
        case '>' => state := state.(angle := Down(state.angle));
        case _ =>
      }
    }
  }

  /** The scanner cuts here. */
  predicate IsCut(s: ScanState, c: char, delimiters: set<char>) {
    !s.InString() && s.IsTopLevel() && c in delimiters
  }

  /** The pieces between cuts, untrimmed; `piece` is what has been read of the
      current one. */
  function Pieces(s: ScanState, piece: string, text: string, delimiters: set<char>): (r: seq<string>)
    ensures r != []
    decreases |text|
  {
    if text == "" then [piece]
    else if IsCut(s, text[0], delimiters) then
      [piece] + Pieces(Observe(s, text[0]), "", text[1..], delimiters)
    else Pieces(Observe(s, text[0]), piece + [text[0]], text[1..], delimiters)
  }

  function TrimmedParts(pieces: seq<string>): seq<string> {
    if pieces == [] then []
    else (if Trim(pieces[0]) == "" then [] else [Trim(pieces[0])]) + TrimmedParts(pieces[1..])
  }

  /** `split_top_level_multi`. */
  function Split(text: string, delimiters: set<char>): seq<string> {
    TrimmedParts(Pieces(START, "", text, delimiters))
  }

  method SplitTopLevelMulti(input: string, delimiters: set<char>) returns (parts: seq<string>)
    ensures parts == Split(input, delimiters)
  {
    hide Trim, Observe, TrimmedParts, Pieces;
    var scanner := new Scanner();
    var start := 0;
    parts := [];
    ghost var whole := TrimmedParts(Pieces(START, "", input, delimiters));
    assert input[0..] == input && input[0..0] == "";
    for i := 0 to |input|
      invariant fresh(scanner) && start <= i
      invariant whole == parts + TrimmedParts(Pieces(scanner.state, input[start..i], input[i..], delimiters))
    {
      NextChar(scanner.state, input, start, i, delimiters);
      if !scanner.state.InString() && scanner.state.IsTopLevel() && input[i] in delimiters {
        CutHere(scanner.state, input, start, i, delimiters);
        var part := Trim(input[start..i]);
        Associate(parts, if part == "" then [] else [part],
                  TrimmedParts(Pieces(Observe(scanner.state, input[i]), "", input[i + 1..], delimiters)));
        if part != "" {
          parts := parts + [part];
        }
        start := i + 1;
        assert input[start..i + 1] == "";
      }
      scanner.ObserveChar(input[i]);
    }
    LastPiece(scanner.state, input, start, delimiters);
    var tail := Trim(input[start..]);
    if tail != "" {
      parts := parts + [tail];
    }
  }

  lemma Associate<T>(a: seq<T>, b: seq<T>, c: seq<T>)
    ensures a + (b + c) == (a + b) + c && a + [] == a
  {
  }

  lemma NextChar(s: ScanState, input: string, start: nat, i: nat, delimiters: set<char>)
    requires start <= i < |input|
    ensures Pieces(s, input[start..i], input[i..], delimiters) ==
            if IsCut(s, input[i], delimiters)
            then [input[start..i]] + Pieces(Observe(s, input[i]), "", input[i + 1..], delimiters)
            else Pieces(Observe(s, input[i]), input[start..i + 1], input[i + 1..], delimiters)
  {
    assert input[start..i] + [input[i]] == input[start..i + 1];
    assert input[i..][1..] == input[i + 1..];
  }

  lemma CutHere(s: ScanState, input: string, start: nat, i: nat, delimiters: set<char>)
    requires start <= i < |input| && !s.InString() && s.IsTopLevel() && input[i] in delimiters
    ensures IsCut(s, input[i], delimiters)
    ensures TrimmedParts([input[start..i]] + Pieces(Observe(s, input[i]), "", input[i + 1..], delimiters))
            == (if Trim(input[start..i]) == "" then [] else [Trim(input[start..i])])
               + TrimmedParts(Pieces(Observe(s, input[i]), "", input[i + 1..], delimiters))
  {
  }

  lemma LastPiece(s: ScanState, input: string, start: nat, delimiters: set<char>)
    requires start <= |input|
    ensures TrimmedParts(Pieces(s, input[start..|input|], input[|input|..], delimiters))
            == if Trim(input[start..]) == "" then [] else [Trim(input[start..])]
  {
    assert input[start..|input|] == input[start..];
  }

  // ------------------------------------------------------------------ parts

  function Run(s: ScanState, text: string): ScanState
    decreases |text|
  {
    if text == "" then s else Run(Observe(s, text[0]), text[1..])
  }

  /** Read from state `s`, `text` has no cut. */
  predicate Uncut(s: ScanState, text: string, delimiters: set<char>)
    decreases |text|
  {
    text == "" || (!IsCut(s, text[0], delimiters) && Uncut(Observe(s, text[0]), text[1..], delimiters))
  }

  /** After `text` the scanner is back at top level. */
  predicate Closed(text: string) {
    Run(START, text) == START
  }

  /** A state the scanner can be in. */
  predicate Sane(s: ScanState) {
    (s.escape ==> s.quote.Some?) && (s.quote.Some? ==> s.quote.value == '"' || s.quote.value == '\'')
  }

  lemma {:induction false} RunAlong(s: ScanState, a: string, b: string)
    ensures Run(s, a + b) == Run(Run(s, a), b)
    decreases |a|
  {
    if a == "" {
      assert a + b == b;
    } else {
      RunAlong(Observe(s, a[0]), a[1..], b);
      assert (a + b)[1..] == a[1..] + b;
    }
  }

  lemma {:induction false} UncutAlong(s: ScanState, a: string, b: string, delimiters: set<char>)
    ensures Uncut(s, a + b, delimiters) <==> Uncut(s, a, delimiters) && Uncut(Run(s, a), b, delimiters)
    decreases |a|
  {
    if a == "" {
      assert a + b == b;
    } else {
      UncutAlong(Observe(s, a[0]), a[1..], b, delimiters);
      assert (a + b)[1..] == a[1..] + b;
    }
  }

  lemma {:induction false} RunIsSane(s: ScanState, text: string)
    requires Sane(s)
    ensures Sane(Run(s, text))
    decreases |text|
  {
    if text != "" {
      RunIsSane(Observe(s, text[0]), text[1..]);
    }
  }

  /** White space outside strings is not seen. */
  lemma {:induction false} WhitespaceIsUnseen(s: ScanState, w: string)
    requires AllWhitespace(w) && Sane(s)
    ensures !s.InString() ==> Run(s, w) == s
    ensures s.InString() ==> Run(s, w).InString()
    decreases |w|
  {
    if w != "" {
      assert IsWhitespace(w[0]);
      assert forall i | 0 <= i < |w[1..]| :: w[1..][i] == w[i + 1];
      WhitespaceIsUnseen(Observe(s, w[0]), w[1..]);
    }
  }

  lemma {:induction false} WhitespaceIsUncut(s: ScanState, w: string, delimiters: set<char>)
    requires AllWhitespace(w) && forall d | d in delimiters :: !IsWhitespace(d)
    ensures Uncut(s, w, delimiters)
    decreases |w|
  {
    if w != "" {
      assert IsWhitespace(w[0]);
      assert forall i | 0 <= i < |w[1..]| :: w[1..][i] == w[i + 1];
      WhitespaceIsUncut(Observe(s, w[0]), w[1..], delimiters);
    }
  }

  /** A part as `Split` returns it, from a piece in which nothing was cut. */
  ghost predicate IsPart(text: string, delimiters: set<char>) {
    text != "" && Trim(text) == text && Uncut(START, text, delimiters)
  }

  /** Parts of which all but the last leave the scanner at top level. */
  ghost predicate AreParts(parts: seq<string>, delimiters: set<char>) {
    parts == []
    || (IsPart(parts[0], delimiters) && (|parts| > 1 ==> Closed(parts[0])) && AreParts(parts[1..], delimiters))
  }

  ghost predicate ArePieces(pieces: seq<string>, delimiters: set<char>) {
    pieces == []
    || (Uncut(START, pieces[0], delimiters) && (|pieces| > 1 ==> Closed(pieces[0]))
        && ArePieces(pieces[1..], delimiters))
  }

  /** The delimiters the exporter uses. */
  ghost predicate AreDelimiters(delimiters: set<char>) {
    delimiters <= {'|', ',', ';'}
  }

  lemma DelimiterFacts(delimiters: set<char>, d: char)
    requires AreDelimiters(delimiters) && d in delimiters
    ensures !IsWhitespace(d) && Observe(START, d) == START && IsCut(START, d, delimiters)
  {
  }

  lemma CutAtStart(s: ScanState, c: char, delimiters: set<char>)
    requires Sane(s) && IsCut(s, c, delimiters)
    ensures s == START
  {
  }

  lemma {:induction false} PiecesArePieces(s: ScanState, piece: string, text: string, delimiters: set<char>)
    requires AreDelimiters(delimiters) && Sane(s) && s == Run(START, piece) && Uncut(START, piece, delimiters)
    ensures ArePieces(Pieces(s, piece, text, delimiters), delimiters)
    decreases |text|
  {
    if text != "" {
      var c, rest := text[0], text[1..];
      if IsCut(s, c, delimiters) {
        CutAtStart(s, c, delimiters);
        DelimiterFacts(delimiters, c);
        PiecesArePieces(START, "", rest, delimiters);
        var more := Pieces(START, "", rest, delimiters);
        assert Pieces(s, piece, text, delimiters)[1..] == more;
      } else {
        RunAlong(START, piece, [c]);
        UncutAlong(START, piece, [c], delimiters);
        OneChar(s, c, delimiters);
        PiecesArePieces(Observe(s, c), piece + [c], rest, delimiters);
      }
    }
  }

  lemma OneChar(s: ScanState, c: char, delimiters: set<char>)
    ensures Run(s, [c]) == Observe(s, c)
    ensures Uncut(s, [c], delimiters) <==> !IsCut(s, c, delimiters)
    ensures Sane(s) ==> Sane(Observe(s, c))
  {
  }

  /** Trimming a piece gives a part in the same state. */
  lemma TrimmedPiece(piece: string, delimiters: set<char>)
    requires AreDelimiters(delimiters) && Uncut(START, piece, delimiters)
    ensures Uncut(START, Trim(piece), delimiters)
    ensures Closed(piece) ==> Closed(Trim(piece))
  {
    hide Run, Uncut, Trim, AllWhitespace;
    var before, after := TrimSplits(piece);
    var t := Trim(piece);
    assert piece == before + (t + after);
    UncutAlong(START, before, t + after, delimiters);
    WhitespaceIsUnseen(START, before);
    UncutAlong(START, t, after, delimiters);
    RunAlong(START, before, t + after);
    RunAlong(START, t, after);
    RunIsSane(START, t);
    WhitespaceIsUnseen(Run(START, t), after);
  }

  lemma {:induction false} TrimmedPiecesAreParts(pieces: seq<string>, delimiters: set<char>)
    requires AreDelimiters(delimiters) && ArePieces(pieces, delimiters)
    ensures AreParts(TrimmedParts(pieces), delimiters)
  {
    hide Trim, Uncut, Closed, AreDelimiters;
    if pieces != [] {
      var rest := pieces[1..];
      TrimmedPiecesAreParts(rest, delimiters);
      TrimmedPiece(pieces[0], delimiters);
      TrimTwice(pieces[0]);
      assert |pieces| == 1 ==> TrimmedParts(rest) == [];
      hide ArePieces;
      if Trim(pieces[0]) != "" {
        assert TrimmedParts(pieces) == [Trim(pieces[0])] + TrimmedParts(rest);
        assert TrimmedParts(pieces)[1..] == TrimmedParts(rest);
      } else {
        assert TrimmedParts(pieces) == [] + TrimmedParts(rest) == TrimmedParts(rest);
      }
    }
  }

  lemma SplitGivesParts(text: string, delimiters: set<char>)
    requires AreDelimiters(delimiters)
    ensures AreParts(Split(text, delimiters), delimiters)
  {
    PiecesArePieces(START, "", text, delimiters);
    TrimmedPiecesAreParts(Pieces(START, "", text, delimiters), delimiters);
  }

  // --------------------------------------------------------------- rejoining

  function Join(parts: seq<string>, separator: string): string {
    if parts == [] then "" else if |parts| == 1 then parts[0]
    else parts[0] + (separator + Join(parts[1..], separator))
  }

  ghost predicate IsSubsequence<T>(kept: seq<T>, all: seq<T>) {
    kept == []
    || (all != [] && (IsSubsequence(kept, all[1..]) || (kept[0] == all[0] && IsSubsequence(kept[1..], all[1..]))))
  }

  lemma {:induction false} SubsequenceOfParts(kept: seq<string>, parts: seq<string>, delimiters: set<char>)
    requires AreParts(parts, delimiters) && IsSubsequence(kept, parts)
    ensures AreParts(kept, delimiters) && |kept| <= |parts|
    decreases |parts|
  {
    if kept != [] {
      if IsSubsequence(kept, parts[1..]) {
        SubsequenceOfParts(kept, parts[1..], delimiters);
      } else {
        SubsequenceOfParts(kept[1..], parts[1..], delimiters);
      }
    }
  }

  /** Text without a cut becomes part of the current piece. */
  lemma {:induction false} ReadUncut(s: ScanState, piece: string, a: string, rest: string, delimiters: set<char>)
    requires Uncut(s, a, delimiters)
    ensures Pieces(s, piece, a + rest, delimiters) == Pieces(Run(s, a), piece + a, rest, delimiters)
    decreases |a|
  {
    if a == "" {
      assert a + rest == rest && piece + a == piece;
    } else {
      assert (a + rest)[1..] == a[1..] + rest;
      ReadUncut(Observe(s, a[0]), piece + [a[0]], a[1..], rest, delimiters);
      assert piece + [a[0]] + a[1..] == piece + a;
    }
  }

  lemma {:induction false} SplitJoined(
      w: string, parts: seq<string>, before: string, d: char, after: string, delimiters: set<char>)
    requires AreDelimiters(delimiters) && d in delimiters && AreParts(parts, delimiters)
    requires AllWhitespace(w) && AllWhitespace(before) && AllWhitespace(after)
    ensures TrimmedParts(Pieces(START, w, Join(parts, before + [d] + after), delimiters)) == parts
    decreases |parts|
  {
    hide Pieces, Trim, TrimmedParts, Uncut, Closed, AreDelimiters, AllWhitespace, IsPart;
    if parts == [] {
      OnlyWhitespace(w, delimiters);
    } else if |parts| == 1 {
      OnlyPart(w, parts[0], delimiters);
      assert parts == [parts[0]];
    } else {
      var rest := Join(parts[1..], before + [d] + after);
      assert AreParts(parts[1..], delimiters);
      assert before + [d] + after + rest == before + ([d] + (after + rest));
      FirstPart(w, parts[0], before, d, after, rest, delimiters);
      SplitJoined(after, parts[1..], before, d, after, delimiters);
      assert parts == [parts[0]] + parts[1..];
    }
  }

  lemma OnlyWhitespace(w: string, delimiters: set<char>)
    requires AllWhitespace(w)
    ensures TrimmedParts(Pieces(START, w, "", delimiters)) == []
  {
  }

  lemma OnlyPart(w: string, part: string, delimiters: set<char>)
    requires AllWhitespace(w) && IsPart(part, delimiters)
    ensures TrimmedParts(Pieces(START, w, part, delimiters)) == [part]
  {
    ReadUncut(START, w, part, "", delimiters);
    assert part + "" == part;
    TrimPadded(w, part, "");
    assert w + part + "" == w + part;
    assert Pieces(START, w, part, delimiters) == [w + part];
    OnePiece(w + part, []);
    assert [w + part] + [] == [w + part] && [part] + TrimmedParts([]) == [part];
  }

  lemma OnePiece(piece: string, more: seq<string>)
    requires Trim(piece) != ""
    ensures TrimmedParts([piece] + more) == [Trim(piece)] + TrimmedParts(more)
  {
  }

  lemma FirstPart(
      w: string, part: string, before: string, d: char, after: string, rest: string, delimiters: set<char>)
    requires AreDelimiters(delimiters) && d in delimiters && IsPart(part, delimiters) && Closed(part)
    requires AllWhitespace(w) && AllWhitespace(before) && AllWhitespace(after)
    ensures TrimmedParts(Pieces(START, w, part + (before + ([d] + (after + rest))), delimiters))
            == [part] + TrimmedParts(Pieces(START, after, rest, delimiters))
  {
    ReadUncut(START, w, part, before + ([d] + (after + rest)), delimiters);
    AfterPart(w + part, before, d, after, rest, delimiters);
    hide Pieces, Trim, TrimmedParts, AllWhitespace;
    TrimPadded(w, part, before);
    OnePiece(w + part + before, Pieces(START, after, rest, delimiters));
  }

  /** Reading a separator. */
  lemma AfterPart(piece: string, before: string, d: char, after: string, rest: string, delimiters: set<char>)
    requires AreDelimiters(delimiters) && d in delimiters && AllWhitespace(before) && AllWhitespace(after)
    ensures Pieces(START, piece, before + ([d] + (after + rest)), delimiters)
            == [piece + before] + Pieces(START, after, rest, delimiters)
  {
    forall c | c in delimiters
      ensures !IsWhitespace(c)
    {
      DelimiterFacts(delimiters, c);
    }
    WhitespaceIsUncut(START, before, delimiters);
    WhitespaceIsUnseen(START, before);
    ReadUncut(START, piece, before, [d] + (after + rest), delimiters);
    DelimiterFacts(delimiters, d);
    assert ([d] + (after + rest))[1..] == after + rest;
    WhitespaceIsUncut(START, after, delimiters);
    WhitespaceIsUnseen(START, after);
    ReadUncut(START, "", after, rest, delimiters);
    assert "" + after == after;
  }

  /** Keeping any of the parts in order, joining them with a delimiter in any
      white space and splitting again returns exactly the kept parts. */
  lemma SplitUndoesRejoin(
      text: string, kept: seq<string>, before: string, d: char, after: string, delimiters: set<char>)
    requires AreDelimiters(delimiters) && d in delimiters
    requires IsSubsequence(kept, Split(text, delimiters)) && AllWhitespace(before) && AllWhitespace(after)
    ensures Split(Join(kept, before + [d] + after), delimiters) == kept
  {
    SplitGivesParts(text, delimiters);
    SubsequenceOfParts(kept, Split(text, delimiters), delimiters);
    SplitJoined("", kept, before, d, after, delimiters);
  }

  // -------------------------------------------------------------- brace spans

  /** A brace opens at top level here. */
  predicate OpensAt(input: string, i: nat) {
    i < |input| && input[i] == '{'
    && !Run(START, input[..i]).InString() && Run(START, input[..i]).IsTopLevel()
  }

  /** After this brace the scanner is at top level. */
  predicate ClosesAt(input: string, i: nat) {
    i < |input| && input[i] == '}'
    && !Run(START, input[..i + 1]).InString() && Run(START, input[..i + 1]).IsTopLevel()
  }

  lemma RunOneMore(input: string, i: nat)
    requires i < |input|
    ensures Run(START, input[..i + 1]) == Observe(Run(START, input[..i]), input[i])
  {
    assert input[..i + 1] == input[..i] + [input[i]];
    RunAlong(START, input[..i], [input[i]]);
    OneChar(Run(START, input[..i]), input[i], {});
  }

  /** The first top-level close that has a top-level open before it, and the
      last such open. */
  ghost predicate IsBraceSpan(input: string, r: Option<(nat, nat)>) {
    && (r.None? ==> forall o, c | 0 <= o < c < |input| :: !(OpensAt(input, o) && ClosesAt(input, c)))
    && (r.Some? ==>
          var (open, close) := r.value;
          && open < close && OpensAt(input, open) && ClosesAt(input, close)
          && (forall o, c | 0 <= o < c < close :: !(OpensAt(input, o) && ClosesAt(input, c)))
          && (forall o | open < o < close :: !OpensAt(input, o)))
  }

  method FindTopLevelBraceSpan(input: string) returns (r: Option<(nat, nat)>)
    ensures IsBraceSpan(input, r)
  {
    hide Observe;
    var scanner := new Scanner();
    var open: Option<nat> := None;
    assert input[..0] == "";
    for i := 0 to |input|
      invariant fresh(scanner) && scanner.state == Run(START, input[..i])
      invariant open.Some? ==> open.value < i && OpensAt(input, open.value)
      invariant forall o | 0 <= o < i && (open.None? || open.value < o) :: !OpensAt(input, o)
      invariant forall o, c | 0 <= o < c < i :: !(OpensAt(input, o) && ClosesAt(input, c))
    {
      RunOneMore(input, i);
      if !scanner.state.InString() && input[i] == '{' && scanner.state.IsTopLevel() {
        open := Some(i);
      }
      scanner.ObserveChar(input[i]);
      if !scanner.state.InString() && input[i] == '}' && scanner.state.IsTopLevel() && open.Some? {
        return Some((open.value, i));
      }
    }
    return None;
  }
}
