/** Finding a block of lines in a file with decreasing strictness
    (code-rs/apply-patch/src/seek_sequence.rs). */
module SeekSequence {
  import opened Text
  import opened Trimming

  /** The passes, strictest first. */
  datatype Level = Exact | TrimmedEnd | Trimmed | Normalised {
    function Rank(): nat {
      if Exact? then 0 else if TrimmedEnd? then 1 else if Trimmed? then 2 else 3
    }
  }

  function NormaliseChar(c: char): char {
    if '\U{2010}' <= c <= '\U{2015}' || c == '\U{2212}' then '-'
    else if '\U{2018}' <= c <= '\U{201B}' then '\''
    else if '\U{201C}' <= c <= '\U{201F}' then '"'
    else if c == '\U{00A0}' || '\U{2002}' <= c <= '\U{200A}' || c == '\U{202F}' || c == '\U{205F}' || c == '\U{3000}'
    then ' '
    else c
  }

  /** `normalise`: typographic punctuation becomes ASCII. */
  function Normalise(s: string): string {
    var t := Trim(s);
    seq(|t|, i requires 0 <= i < |t| => NormaliseChar(t[i]))
  }

  /** What one pass compares of a line. */
  function View(level: Level, line: string): string {
    match level
    case Exact => line
    case TrimmedEnd => TrimEnd(line)
    case Trimmed => Trim(line)
    case Normalised => Normalise(line)
  }

  ghost predicate MatchesAt(level: Level, lines: seq<string>, pattern: seq<string>, i: nat) {
    && i + |pattern| <= |lines|
    && forall k | 0 <= k < |pattern| :: View(level, lines[i + k]) == View(level, pattern[k])
  }

  /** A match at a level is a match at every looser one. */
  lemma LevelsAreNested(strict: Level, loose: Level, lines: seq<string>, pattern: seq<string>, i: nat)
    requires strict.Rank() <= loose.Rank() && MatchesAt(strict, lines, pattern, i)
    ensures MatchesAt(loose, lines, pattern, i)
  {
  }

  // ------------------------------------------------------- which lines match

  const DASHES := {'-', '\U{2010}', '\U{2011}', '\U{2012}', '\U{2013}', '\U{2014}', '\U{2015}', '\U{2212}'}

  const SINGLE_QUOTES := {'\'', '\U{2018}', '\U{2019}', '\U{201A}', '\U{201B}'}

  const DOUBLE_QUOTES := {'"', '\U{201C}', '\U{201D}', '\U{201E}', '\U{201F}'}

  const SPACES := {
    ' ', '\U{00A0}', '\U{2002}', '\U{2003}', '\U{2004}', '\U{2005}', '\U{2006}', '\U{2007}', '\U{2008}', '\U{2009}',
    '\U{200A}', '\U{202F}', '\U{205F}', '\U{3000}'}

  /** The same character, or two of the same kind of dash, quote or space. */
  predicate LookAlike(c: char, d: char) {
    || c == d
    || (c in DASHES && d in DASHES)
    || (c in SINGLE_QUOTES && d in SINGLE_QUOTES)
    || (c in DOUBLE_QUOTES && d in DOUBLE_QUOTES)
    || (c in SPACES && d in SPACES)
  }

  /** `core` is `line` without white space at its end. */
  ghost predicate IsFront(line: string, core: string) {
    && (exists after :: AllWhitespace(after) && line == core + after)
    && (core != "" ==> !IsWhitespace(core[|core| - 1]))
  }

  /** `core` is `line` without white space at its ends. */
  ghost predicate IsCore(line: string, core: string) {
    && (exists before, after :: AllWhitespace(before) && AllWhitespace(after) && line == before + core + after)
    && (core != "" ==> !IsWhitespace(core[0]) && !IsWhitespace(core[|core| - 1]))
  }

  ghost predicate SameLook(s: string, t: string) {
    |s| == |t| && forall i | 0 <= i < |s| :: LookAlike(s[i], t[i])
  }

  /** Which lines are taken for each other at a level. */
  ghost predicate Alike(level: Level, a: string, b: string) {
    match level
    case Exact => a == b
    case TrimmedEnd => exists core :: IsFront(a, core) && IsFront(b, core)
    case Trimmed => exists core :: IsCore(a, core) && IsCore(b, core)
    case Normalised => exists s, t :: IsCore(a, s) && IsCore(b, t) && SameLook(s, t)
  }

  lemma CharsLookAlike(c: char, d: char)
    ensures NormaliseChar(c) == NormaliseChar(d) <==> LookAlike(c, d)
  {
  }

  lemma FrontIffTrimmedEnd(line: string, core: string)
    ensures IsFront(line, core) <==> core == TrimEnd(line)
  {
    hide TrimEnd, AllWhitespace, IsWhitespace;
    var r := TrimEnd(line);
    assert line == r + line[|r|..];
    forall after | AllWhitespace(after) && line == core + after && (core != "" ==> !IsWhitespace(core[|core| - 1]))
      ensures r == core
    {
      if core != "" {
        TrimEndPadded(core, after);
      } else {
        assert line == after;
        BlankEnd(line);
      }
    }
  }

  lemma {:induction false} BlankEnd(line: string)
    requires AllWhitespace(line)
    ensures TrimEnd(line) == ""
  {
    if line != "" {
      BlankEnd(line[..|line| - 1]);
    }
  }

  lemma CoreIffTrimmed(line: string, core: string)
    ensures IsCore(line, core) <==> core == Trim(line)
  {
    hide Trim, AllWhitespace, IsWhitespace;
    var b, a := TrimSplits(line);
    TrimTwice(line);
    if Trim(line) != "" {
      TrimmedEnds(Trim(line));
    }
    forall before, after |
      && AllWhitespace(before) && AllWhitespace(after) && line == before + core + after
      && (core != "" ==> !IsWhitespace(core[0]) && !IsWhitespace(core[|core| - 1]))
      ensures Trim(line) == core
    {
      if core != "" {
        TrimmedAlready(core);
        TrimPadded(before, core, after);
      } else {
        assert line == before + after;
        BlankJoined(before, after);
        BlankIffTrimmedAway(line);
      }
    }
  }

  lemma BlankJoined(before: string, after: string)
    requires AllWhitespace(before) && AllWhitespace(after)
    ensures AllWhitespace(before + after)
  {
    hide IsWhitespace;
  }

  lemma SameLookIff(s: string, t: string)
    ensures SameLook(s, t) <==> |s| == |t| && forall i | 0 <= i < |s| :: NormaliseChar(s[i]) == NormaliseChar(t[i])
  {
    hide NormaliseChar, LookAlike;
    forall c, d
      ensures NormaliseChar(c) == NormaliseChar(d) <==> LookAlike(c, d)
    {
      CharsLookAlike(c, d);
    }
  }

  lemma NormalisedIff(a: string, b: string)
    ensures Normalise(a) == Normalise(b) <==> SameLook(Trim(a), Trim(b))
  {
    hide Trim, NormaliseChar, LookAlike;
    SameLookIff(Trim(a), Trim(b));
    if Normalise(a) == Normalise(b) {
      forall i | 0 <= i < |Trim(a)|
        ensures NormaliseChar(Trim(a)[i]) == NormaliseChar(Trim(b)[i])
      {
        assert Normalise(a)[i] == Normalise(b)[i];
      }
    }
  }

  /** What is compared is equal for just those lines. */
  lemma SameViewIffAlike(level: Level, a: string, b: string)
    ensures View(level, a) == View(level, b) <==> Alike(level, a, b)
  {
    hide Trim, TrimEnd, Normalise, IsCore, IsFront, SameLook;
    forall line, core
      ensures IsFront(line, core) <==> core == TrimEnd(line)
      ensures IsCore(line, core) <==> core == Trim(line)
    {
      FrontIffTrimmedEnd(line, core);
      CoreIffTrimmed(line, core);
    }
    NormalisedIff(a, b);
    assert IsFront(a, TrimEnd(a)) && IsCore(a, Trim(a)) && IsCore(b, Trim(b));
  }

  /** A block matches where each of its lines is alike. */
  lemma MatchesIffAlike(level: Level, lines: seq<string>, pattern: seq<string>, i: nat)
    ensures MatchesAt(level, lines, pattern, i) <==>
            && i + |pattern| <= |lines|
            && forall k | 0 <= k < |pattern| :: Alike(level, lines[i + k], pattern[k])
  {
    hide View, Alike;
    if i + |pattern| <= |lines| {
      forall k | 0 <= k < |pattern|
        ensures View(level, lines[i + k]) == View(level, pattern[k]) <==> Alike(level, lines[i + k], pattern[k])
      {
        SameViewIffAlike(level, lines[i + k], pattern[k]);
      }
    }
  }

  // ------------------------------------------------------------------- search

  /** Where the search begins. */
  function SearchStart(lines: seq<string>, pattern: seq<string>, start: nat, eof: bool): nat
    requires |pattern| <= |lines|
  {
    if eof then |lines| - |pattern| else start
  }

  ghost predicate AnyMatch(level: Level, lines: seq<string>, pattern: seq<string>, from: nat) {
    exists i :: from <= i <= |lines| && MatchesAt(level, lines, pattern, i)
  }

  /** `i` is the first match from `from` on at `level`. */
  ghost predicate IsFirst(level: Level, lines: seq<string>, pattern: seq<string>, from: nat, i: nat) {
    && from <= i && MatchesAt(level, lines, pattern, i)
    && forall j | from <= j < i :: !MatchesAt(level, lines, pattern, j)
  }

  /** `i` is the first match at the strictest level that has any. */
  ghost predicate IsBest(level: Level, lines: seq<string>, pattern: seq<string>, from: nat, i: nat) {
    && IsFirst(level, lines, pattern, from, i)
    && forall stricter: Level | stricter.Rank() < level.Rank() :: !AnyMatch(stricter, lines, pattern, from)
  }

  lemma BestIsUnique(k: Level, l: Level, lines: seq<string>, pattern: seq<string>, from: nat, i: nat, j: nat)
    requires IsBest(k, lines, pattern, from, i) && IsBest(l, lines, pattern, from, j)
    ensures k == l && i == j
  {
    if k.Rank() < l.Rank() {
      assert AnyMatch(k, lines, pattern, from);
    } else if l.Rank() < k.Rank() {
      assert AnyMatch(l, lines, pattern, from);
    }
  }

  /** One pass over the candidate positions. */
  method FirstMatch(level: Level, lines: seq<string>, pattern: seq<string>, from: nat) returns (r: Option<nat>)
    requires 0 < |pattern| <= |lines|
    ensures r.None? <==> !AnyMatch(level, lines, pattern, from)
    ensures r.Some? ==> IsFirst(level, lines, pattern, from, r.value)
  {
    hide View;
    var i := from;
    while i <= |lines| - |pattern|
      invariant from <= i
      invariant forall j | from <= j < i :: !MatchesAt(level, lines, pattern, j)
    {
      var ok := true;
      var k := 0;
      while k < |pattern|
        invariant k <= |pattern|
        invariant ok ==> forall m | 0 <= m < k :: View(level, lines[i + m]) == View(level, pattern[m])
        invariant !ok ==> !MatchesAt(level, lines, pattern, i)
      {
        if View(level, lines[i + k]) != View(level, pattern[k]) {
          ok := false;
          break;
        }
        k := k + 1;
      }
      if ok {
        assert MatchesAt(level, lines, pattern, i);
        return Some(i);
      }
      i := i + 1;
    }
    return None;
  }

  /** Looks for `pattern` in `lines` at or after `start`. */
  method SeekSequence(lines: seq<string>, pattern: seq<string>, start: nat, eof: bool) returns (r: Option<nat>)
    ensures pattern == [] ==> r == Some(start)
    ensures |pattern| > |lines| ==> r == None
    ensures 0 < |pattern| <= |lines| ==>
              var from := SearchStart(lines, pattern, start, eof);
              && (r.Some? <==> AnyMatch(Normalised, lines, pattern, from))
              && (r.Some? ==> exists level :: IsBest(level, lines, pattern, from, r.value))
              && (r.Some? && eof ==> r.value == |lines| - |pattern|)
  {
    if pattern == [] {
      return Some(start);
    }
    if |pattern| > |lines| {
      return None;
    }
    var from := if eof then |lines| - |pattern| else start;
    r := FirstMatch(Exact, lines, pattern, from);
    if r.Some? {
      BestFound(Exact, lines, pattern, from, r.value);
      return;
    }
    r := FirstMatch(TrimmedEnd, lines, pattern, from);
    if r.Some? {
      BestFound(TrimmedEnd, lines, pattern, from, r.value);
      return;
    }
    r := FirstMatch(Trimmed, lines, pattern, from);
    if r.Some? {
      BestFound(Trimmed, lines, pattern, from, r.value);
      return;
    }
    r := FirstMatch(Normalised, lines, pattern, from);
    if r.Some? {
      BestFound(Normalised, lines, pattern, from, r.value);
    }
  }

  lemma BestFound(level: Level, lines: seq<string>, pattern: seq<string>, from: nat, i: nat)
    requires IsFirst(level, lines, pattern, from, i)
    requires forall stricter: Level | stricter.Rank() < level.Rank() :: !AnyMatch(stricter, lines, pattern, from)
    ensures IsBest(level, lines, pattern, from, i)
    ensures AnyMatch(Normalised, lines, pattern, from)
  {
    LevelsAreNested(level, Normalised, lines, pattern, i);
  }

  /** A search with `eof` finds a block just when the last lines match it. */
  lemma EofFindsIff(lines: seq<string>, pattern: seq<string>, start: nat)
    requires 0 < |pattern| <= |lines|
    ensures AnyMatch(Normalised, lines, pattern, SearchStart(lines, pattern, start, true))
            <==> MatchesAt(Normalised, lines, pattern, |lines| - |pattern|)
  {
    hide View;
  }

  /** So it can miss an earlier match. */
  lemma EofMissesAnEarlierMatch()
    ensures var lines, pattern := ["a", "b"], ["a"];
            && MatchesAt(Exact, lines, pattern, 0)
            && !AnyMatch(Normalised, lines, pattern, SearchStart(lines, pattern, 0, true))
  {
    var lines, pattern := ["a", "b"], ["a"];
    hide AnyMatch, Normalise, Trim, TrimEnd, IsWhitespace, NormaliseChar;
    PlainLetters();
    LetterStays('a');
    LetterStays('b');
    EofFindsIff(lines, pattern, 0);
    assert View(Normalised, lines[1 + 0]) == "b" && View(Normalised, pattern[0]) == "a";
    assert "a"[0] != "b"[0];
  }

  /** A result with `eof` respects the start exactly when the block, put at the
      end, does not begin before it. */
  lemma EofRespectsStartIff(lines: seq<string>, pattern: seq<string>, start: nat, level: Level, found: nat)
    requires 0 < |pattern| <= |lines|
    requires IsBest(level, lines, pattern, SearchStart(lines, pattern, start, true), found)
    ensures found == |lines| - |pattern|
    ensures found >= start <==> start <= |lines| - |pattern|
  {
  }

  /** So it can find a block before the start. */
  lemma EofFindsBeforeTheStart()
    ensures IsBest(Exact, ["a"], ["a"], SearchStart(["a"], ["a"], 1, true), 0)
  {
    assert MatchesAt(Exact, ["a"], ["a"], 0);
  }

  lemma PlainLetters()
    ensures !IsWhitespace('a') && !IsWhitespace('b')
    ensures NormaliseChar('a') == 'a' && NormaliseChar('b') == 'b'
  {
  }

  lemma LetterStays(c: char)
    requires !IsWhitespace(c) && NormaliseChar(c) == c
    ensures Normalise([c]) == [c]
  {
    hide IsWhitespace, NormaliseChar, TrimStart, TrimEnd;
    TrimLetter(c);
    hide Trim;
    assert |Normalise([c])| == 1 && Normalise([c])[0] == NormaliseChar(c);
  }

  lemma TrimLetter(c: char)
    requires !IsWhitespace(c)
    ensures Trim([c]) == [c]
  {
    hide IsWhitespace;
    assert TrimEnd([c]) == [c];
    assert TrimStart([c]) == [c];
  }

  /** An unmodified block is always found, and never after its true place:
      normalising cannot make the search miss or overshoot it. */
  lemma ExactBlockWins(lines: seq<string>, pattern: seq<string>, from: nat, at: nat, level: Level, found: nat)
    requires 0 < |pattern| && from <= at && at + |pattern| <= |lines| && lines[at..at + |pattern|] == pattern
    requires IsBest(level, lines, pattern, from, found)
    ensures level == Exact && found <= at && lines[found..found + |pattern|] == pattern
  {
    assert MatchesAt(Exact, lines, pattern, at) by {
      forall k | 0 <= k < |pattern|
        ensures lines[at + k] == pattern[k]
      {
        assert lines[at..at + |pattern|][k] == pattern[k];
      }
    }
    assert AnyMatch(Exact, lines, pattern, from);
    forall k | 0 <= k < |pattern|
      ensures lines[found + k] == pattern[k]
    {
      assert View(Exact, lines[found + k]) == View(Exact, pattern[k]);
    }
  }
}
