/** What the scanner takes for top level, in terms of the text alone: texts made
    of plain characters, quoted literals and bracketed groups of such texts
    (code-rs/app-server-protocol/src/export.rs). */
module TopLevelNesting {
  import opened Text
  import opened Trimming
  import opened TopLevelScan

  // ------------------------------------------------------------ nested texts

  datatype Piece =
    | Plain(c: char)
    | Quoted(quote: char, body: string)
    | Group(open: char, inside: seq<Piece>)

  function Closer(open: char): char {
    match open
    case '{' => '}'
    case '[' => ']'
    case '(' => ')'
    case _ => '>'
  }

  const MARKS := {'"', '\'', '{', '}', '[', ']', '(', ')', '<', '>'}

  /** The inside of a literal: escapes of any character, and any other character
      than the quote and the backslash. */
  predicate IsLiteral(quote: char, body: string)
    decreases |body|
  {
    body == ""
    || (body[0] == '\\' && |body| > 1 && IsLiteral(quote, body[2..]))
    || (body[0] != '\\' && body[0] != quote && IsLiteral(quote, body[1..]))
  }

  ghost predicate IsNested(p: Piece) {
    match p
    case Plain(c) => c !in MARKS
    case Quoted(quote, body) => (quote == '"' || quote == '\'') && IsLiteral(quote, body)
    case Group(open, inside) => open in {'{', '[', '(', '<'} && forall q | q in inside :: IsNested(q)
  }

  ghost predicate AreNested(ps: seq<Piece>) {
    forall p | p in ps :: IsNested(p)
  }

  function TextOf(p: Piece): string
    decreases p, 1
  {
    match p
    case Plain(c) => [c]
    case Quoted(quote, body) => [quote] + (body + [quote])
    case Group(open, inside) => [open] + (TextsOf(inside) + [Closer(open)])
  }

  function TextsOf(ps: seq<Piece>): string
    decreases ps, 0
  {
    if ps == [] then "" else TextOf(ps[0]) + TextsOf(ps[1..])
  }

  // ------------------------------------------------------- running the scanner

  predicate IsInside(s: ScanState) {
    s.InString() || !s.IsTopLevel()
  }

  /** Read from `s`, no character of `text` stands at top level. */
  predicate IsBelow(s: ScanState, text: string)
    decreases |text|
  {
    text == "" || (IsInside(s) && IsBelow(Observe(s, text[0]), text[1..]))
  }

  lemma {:induction false} BelowAlong(s: ScanState, a: string, b: string)
    ensures IsBelow(s, a + b) <==> IsBelow(s, a) && IsBelow(Run(s, a), b)
    decreases |a|
  {
    if a == "" {
      assert a + b == b;
    } else {
      BelowAlong(Observe(s, a[0]), a[1..], b);
      assert (a + b)[1..] == a[1..] + b;
    }
  }

  /** Outside of literals. */
  predicate IsPlain(s: ScanState) {
    s.quote.None? && !s.escape
  }

  lemma {:induction false} LiteralRuns(s: ScanState, quote: char, body: string)
    requires s.quote == Some(quote) && !s.escape && quote != '\\' && IsLiteral(quote, body)
    ensures Run(s, body) == s && IsBelow(s, body)
    decreases |body|
  {
    if body != "" {
      if body[0] == '\\' && |body| > 1 && IsLiteral(quote, body[2..]) {
        LiteralRuns(s, quote, body[2..]);
        var t := Observe(s, body[0]);
        assert Observe(t, body[1]) == s;
        assert body[1..][1..] == body[2..];
      } else {
        LiteralRuns(s, quote, body[1..]);
      }
    }
  }

  /** A literal or a group, read from any state outside of literals: after its
      first character everything is below top level, and at its end the state is
      the one before it. */
  ghost predicate Encloses(s: ScanState, text: string) {
    text != "" && Run(s, text) == s && IsBelow(Observe(s, text[0]), text[1..])
  }

  lemma EnclosedBy(s: ScanState, first: char, inner: string, last: char)
    requires var t := Observe(s, first);
             IsInside(t) && Run(t, inner) == t && IsBelow(t, inner) && Observe(t, last) == s
    ensures Encloses(s, [first] + (inner + [last]))
  {
    var t, text := Observe(s, first), [first] + (inner + [last]);
    assert text[1..] == inner + [last];
    RunAlong(t, inner, [last]);
    BelowAlong(t, inner, [last]);
    OneChar(t, last, {});
    assert IsBelow(t, [last]);
  }

  lemma {:induction false} PieceRuns(s: ScanState, p: Piece)
    requires IsPlain(s) && IsNested(p)
    ensures p.Plain? ==> Observe(s, p.c) == s
    ensures !p.Plain? ==> Encloses(s, TextOf(p))
    ensures Run(s, TextOf(p)) == s
    decreases p, 1
  {
    match p
    case Plain(c) => OneChar(s, c, {});
    case Quoted(quote, body) =>
      LiteralRuns(Observe(s, quote), quote, body);
      EnclosedBy(s, quote, body, quote);
    case Group(open, inside) =>
      var t := Observe(s, open);
      assert AreNested(inside);
      PiecesRun(t, inside);
      EnclosedBy(s, open, TextsOf(inside), Closer(open));
  }

  lemma {:induction false} PiecesRun(s: ScanState, ps: seq<Piece>)
    requires IsPlain(s) && AreNested(ps)
    ensures Run(s, TextsOf(ps)) == s
    ensures IsInside(s) ==> IsBelow(s, TextsOf(ps))
    decreases ps, 0
  {
    if ps != [] {
      var p, text, more := ps[0], TextOf(ps[0]), TextsOf(ps[1..]);
      PieceRuns(s, p);
      PiecesRun(s, ps[1..]);
      RunAlong(s, text, more);
      BelowAlong(s, text, more);
      if IsInside(s) {
        assert IsBelow(s, text);
      }
    }
  }

  // ----------------------------------------------------------------- splitting

  /** The texts between the delimiters that stand outside all literals and
      groups; `piece` is the beginning of the first. */
  function Sections(piece: string, ps: seq<Piece>, delimiters: set<char>): seq<string>
    decreases |ps|
  {
    if ps == [] then [piece]
    else if ps[0].Plain? && ps[0].c in delimiters then [piece] + Sections("", ps[1..], delimiters)
    else Sections(piece + TextOf(ps[0]), ps[1..], delimiters)
  }

  /** Trimmed, without those that are only white space. */
  ghost function Shown(sections: seq<string>): seq<string> {
    if sections == [] then []
    else (if AllWhitespace(sections[0]) then [] else [Trim(sections[0])]) + Shown(sections[1..])
  }

  lemma {:induction false} ShownAreTrimmed(sections: seq<string>)
    ensures TrimmedParts(sections) == Shown(sections)
  {
    hide Trim, AllWhitespace;
    if sections != [] {
      BlankIffTrimmedAway(sections[0]);
      ShownAreTrimmed(sections[1..]);
    }
  }

  lemma {:induction false} BelowIsUncut(s: ScanState, text: string, delimiters: set<char>)
    requires IsBelow(s, text)
    ensures Uncut(s, text, delimiters)
    decreases |text|
  {
    if text != "" {
      BelowIsUncut(Observe(s, text[0]), text[1..], delimiters);
    }
  }

  lemma EnclosedIsUncut(text: string, delimiters: set<char>)
    requires Encloses(START, text) && text[0] !in delimiters
    ensures Uncut(START, text, delimiters)
  {
    BelowIsUncut(Observe(START, text[0]), text[1..], delimiters);
  }

  lemma FirstOfPiece(p: Piece, delimiters: set<char>)
    requires IsNested(p) && AreDelimiters(delimiters) && !p.Plain?
    ensures TextOf(p) != "" && TextOf(p)[0] !in delimiters
  {
  }

  lemma {:induction false} SectionsAreThePieces(piece: string, ps: seq<Piece>, delimiters: set<char>)
    requires AreNested(ps) && AreDelimiters(delimiters)
    ensures Pieces(START, piece, TextsOf(ps), delimiters) == Sections(piece, ps, delimiters)
    decreases |ps|
  {
    hide Observe, Run, Uncut;
    if ps != [] {
      var p, more := ps[0], TextsOf(ps[1..]);
      PieceRuns(START, p);
      if p.Plain? && p.c in delimiters {
        DelimiterFacts(delimiters, p.c);
        assert ([p.c] + more)[1..] == more;
        SectionsAreThePieces("", ps[1..], delimiters);
      } else {
        if p.Plain? {
          OneChar(START, p.c, delimiters);
        } else {
          FirstOfPiece(p, delimiters);
          EnclosedIsUncut(TextOf(p), delimiters);
        }
        ReadUncut(START, piece, TextOf(p), more, delimiters);
        SectionsAreThePieces(piece + TextOf(p), ps[1..], delimiters);
      }
    }
  }

  /** A nested text is cut exactly at the delimiters that stand outside all
      literals and brackets. */
  lemma NestedTextIsCutAtTopLevel(ps: seq<Piece>, delimiters: set<char>)
    requires AreNested(ps) && AreDelimiters(delimiters)
    ensures Split(TextsOf(ps), delimiters) == Shown(Sections("", ps, delimiters))
  {
    SectionsAreThePieces("", ps, delimiters);
    ShownAreTrimmed(Sections("", ps, delimiters));
  }

  /** A literal, or brackets around any nested text, is one part. */
  lemma EnclosedIsOnePart(p: Piece, delimiters: set<char>)
    requires IsNested(p) && !p.Plain? && AreDelimiters(delimiters)
    ensures Split(TextOf(p), delimiters) == [TextOf(p)]
  {
    var text := TextOf(p);
    NestedTextIsCutAtTopLevel([p], delimiters);
    hide Shown, Split, IsLiteral;
    assert TextsOf([p]) == text + "" == text;
    assert Sections("", [p], delimiters) == [text] by {
      assert "" + text == text;
    }
    NotBlankAtEnds(p);
    assert !AllWhitespace(text);
    hide Trim;
    TrimmedAlready(text);
    ShownOne(text);
  }

  lemma ShownOne(text: string)
    requires !AllWhitespace(text) && Trim(text) == text
    ensures Shown([text]) == [text]
  {
    assert [text][1..] == [];
  }

  lemma NotBlankAtEnds(p: Piece)
    requires IsNested(p) && !p.Plain?
    ensures var text := TextOf(p);
            text != "" && !IsWhitespace(text[0]) && !IsWhitespace(text[|text| - 1])
  {
  }

  // --------------------------------------------------------------- brace spans

  ghost predicate HasNoBraces(ps: seq<Piece>) {
    forall p | p in ps :: !(p.Group? && p.open == '{')
  }

  lemma {:induction false} BelowAt(s: ScanState, text: string, k: nat)
    requires IsBelow(s, text) && k < |text|
    ensures IsInside(Run(s, text[..k]))
    decreases |text|
  {
    if k > 0 {
      BelowAt(Observe(s, text[0]), text[1..], k - 1);
      assert text[..k][1..] == text[1..][..k - 1];
    }
  }

  /** No brace opens at top level in `text`, read from the start. */
  ghost predicate OpensNowhere(text: string) {
    forall k | 0 <= k < |text| :: !(text[k] == '{' && !IsInside(Run(START, text[..k])))
  }

  lemma PieceOpensNowhere(p: Piece, k: nat)
    requires IsNested(p) && !(p.Group? && p.open == '{') && k < |TextOf(p)|
    ensures !(TextOf(p)[k] == '{' && !IsInside(Run(START, TextOf(p)[..k])))
  {
    var text := TextOf(p);
    PieceRuns(START, p);
    if k > 0 {
      BelowAt(Observe(START, text[0]), text[1..], k - 1);
      assert text[..k][1..] == text[1..][..k - 1];
    }
  }

  lemma {:induction false} NoBracesOpenNowhere(ps: seq<Piece>)
    requires AreNested(ps) && HasNoBraces(ps)
    ensures OpensNowhere(TextsOf(ps))
  {
    if ps != [] {
      var first, more := TextOf(ps[0]), TextsOf(ps[1..]);
      NoBracesOpenNowhere(ps[1..]);
      PieceRuns(START, ps[0]);
      var text := first + more;
      forall k | 0 <= k < |text|
        ensures !(text[k] == '{' && !IsInside(Run(START, text[..k])))
      {
        if k < |first| {
          PieceOpensNowhere(ps[0], k);
          assert text[..k] == first[..k];
        } else {
          RunAlong(START, first, more[..k - |first|]);
          assert text[..k] == first + more[..k - |first|];
        }
      }
    }
  }

  /** Behind a nested text without braces at top level, braces around any nested
      text are the span found, whatever follows. */
  lemma OuterBracesAreFound(before: seq<Piece>, inside: seq<Piece>, rest: string, r: Option<(nat, nat)>)
    requires AreNested(before) && HasNoBraces(before) && AreNested(inside)
    requires IsBraceSpan(TextsOf(before) + ("{" + (TextsOf(inside) + ("}" + rest))), r)
    ensures r == Some((|TextsOf(before)|, |TextsOf(before)| + 1 + |TextsOf(inside)|))
  {
    hide Run, IsInside, AreNested, HasNoBraces, TextsOf, Observe, OpensAt, ClosesAt, OpensNowhere, IsBraceSpan;
    var front, inner := TextsOf(before), TextsOf(inside);
    var text := front + ("{" + (inner + ("}" + rest)));
    var open, close := |front|, |front| + 1 + |inner|;
    assert text[open] == '{' && text[close] == '}' && text[..open] == front;
    assert text[..close + 1] == front + ("{" + (inner + "}"));
    NoBracesOpenNowhere(before);
    PiecesRun(START, before);
    GroupStates(front, inside, text, open, close);
    SpanMarks(text, front, close);
    OnlySpan(text, open, close, r);
  }

  lemma SpanMarks(text: string, front: string, close: nat)
    requires |front| < close < |text| && text[..|front|] == front && text[|front|] == '{' && text[close] == '}'
    requires OpensNowhere(front) && Run(START, front) == START && Run(START, text[..close + 1]) == START
    requires forall k | |front| < k <= close :: IsInside(Run(START, text[..k]))
    ensures OpensAt(text, |front|) && ClosesAt(text, close)
    ensures forall k: nat | k <= close && k != |front| :: !OpensAt(text, k)
    ensures forall k: nat | |front| < k < close :: !ClosesAt(text, k)
  {
    hide Run, IsInside, Observe, OpensAt, ClosesAt;
    AtTopLevel(text, |front|);
    AtTopLevel(text, close);
    forall k: nat | k < |front|
      ensures !OpensAt(text, k)
    {
      AtTopLevel(text, k);
      assert text[..k] == front[..k] && text[k] == front[k];
    }
    forall k: nat | |front| < k <= close
      ensures !OpensAt(text, k) && (k < close ==> !ClosesAt(text, k))
    {
      AtTopLevel(text, k);
    }
  }

  lemma OnlySpan(text: string, open: nat, close: nat, r: Option<(nat, nat)>)
    requires open < close < |text| && OpensAt(text, open) && ClosesAt(text, close) && IsBraceSpan(text, r)
    requires forall k: nat | k <= close && k != open :: !OpensAt(text, k)
    requires forall k: nat | open < k < close :: !ClosesAt(text, k)
    ensures r == Some((open, close))
  {
    hide OpensAt, ClosesAt;
    if r.Some? {
      var (o, c) := r.value;
      assert !(close < c);
    }
  }

  lemma AtTopLevel(text: string, k: nat)
    ensures OpensAt(text, k) <==> k < |text| && text[k] == '{' && !IsInside(Run(START, text[..k]))
    ensures ClosesAt(text, k) <==> k < |text| && text[k] == '}' && !IsInside(Run(START, text[..k + 1]))
    ensures !IsInside(START)
  {
  }

  lemma GroupStates(front: string, inside: seq<Piece>, text: string, open: nat, close: nat)
    requires AreNested(inside) && Run(START, front) == START
    requires open == |front| && close == open + 1 + |TextsOf(inside)| < |text|
    requires text[..close + 1] == front + ("{" + (TextsOf(inside) + "}"))
    ensures forall k | open < k <= close :: IsInside(Run(START, text[..k]))
    ensures Run(START, text[..close + 1]) == START
  {
    var p := Group('{', inside);
    var group := TextOf(p);
    assert group == "{" + (TextsOf(inside) + "}");
    PieceRuns(START, p);
    RunAlong(START, front, group);
    forall k | open < k <= close
      ensures IsInside(Run(START, text[..k]))
    {
      var n := k - open;
      BelowAt(Observe(START, group[0]), group[1..], n - 1);
      assert group[..n][1..] == group[1..][..n - 1];
      RunAlong(START, front, group[..n]);
      assert text[..k] == text[..close + 1][..k] == front + group[..n];
    }
  }

  /** In a nested text without braces at top level there is no span. */
  lemma NoBracesNoSpan(ps: seq<Piece>, r: Option<(nat, nat)>)
    requires AreNested(ps) && HasNoBraces(ps) && IsBraceSpan(TextsOf(ps), r)
    ensures r == None
  {
    NoBracesOpenNowhere(ps);
    NoOpenNoSpan(TextsOf(ps), r);
  }

  lemma NoOpenNoSpan(text: string, r: Option<(nat, nat)>)
    requires OpensNowhere(text) && IsBraceSpan(text, r)
    ensures r == None
  {
    forall k: nat
      ensures !OpensAt(text, k)
    {
      AtTopLevel(text, k);
      if k < |text| {
        assert !(text[k] == '{' && !IsInside(Run(START, text[..k])));
      }
    }
    hide OpensAt, ClosesAt, OpensNowhere;
    assert r.Some? ==> !OpensAt(text, r.value.0);
  }
}
