/** Splitting text into lines as Rust's `split_inclusive('\n')` and
    `str::lines` do. */
module Lines {

  predicate IsLine(s: string) {
    '\n' !in s
  }

  /** The position of the first line feed, or the length of `s`. */
  function FirstNewline(s: string): (n: nat)
    ensures n <= |s| && IsLine(s[..n]) && (n < |s| ==> s[n] == '\n')
  {
    if s == "" || s[0] == '\n' then 0
    else
      var n := 1 + FirstNewline(s[1..]);
      assert s[..n] == [s[0]] + s[1..][..n - 1];
      n
  }

  /** `split_inclusive('\n')`. */
  function Segments(s: string): seq<string>
    decreases |s|
  {
    var n := FirstNewline(s);
    if s == "" then []
    else if n == |s| then [s]
    else [s[..n + 1]] + Segments(s[n + 1..])
  }

  /** The line in a segment, without its line feed. */
  function Chomp(segment: string): string {
    if segment != "" && segment[|segment| - 1] == '\n' then segment[..|segment| - 1] else segment
  }

  /** Each line followed by a line feed. */
  function Unlines(lines: seq<string>): string {
    if lines == [] then "" else lines[0] + ("\n" + Unlines(lines[1..]))
  }

  lemma {:induction false} FirstNewlineAfterLine(line: string, rest: string)
    requires IsLine(line)
    ensures FirstNewline(line + ("\n" + rest)) == |line|
  {
    var s := line + ("\n" + rest);
    if line != "" {
      FirstNewlineAfterLine(line[1..], rest);
      assert s[0] == line[0];
      assert s[1..] == line[1..] + ("\n" + rest);
    }
  }

  lemma SegmentsOfLine(line: string, rest: string)
    requires IsLine(line)
    ensures Segments(line + ("\n" + rest)) == [line + "\n"] + Segments(rest)
  {
    FirstNewlineAfterLine(line, rest);
    var s := line + ("\n" + rest);
    assert s[..|line| + 1] == line + "\n" && s[|line| + 1..] == rest;
  }

  /** The lines of a text, without line feeds. */
  function Chomped(segments: seq<string>): (r: seq<string>)
    ensures |r| == |segments| && forall i | 0 <= i < |r| :: r[i] == Chomp(segments[i])
  {
    seq(|segments|, i requires 0 <= i < |segments| => Chomp(segments[i]))
  }

  lemma UnlinesCons(line: string, lines: seq<string>)
    ensures Unlines([line] + lines) == line + ("\n" + Unlines(lines))
  {
  }

  lemma UnlinesEmpty()
    ensures Unlines([]) == ""
  {
  }

  lemma CutAtNewline(s: string, n: nat)
    requires n < |s| && s[n] == '\n'
    ensures s[..n + 1] == s[..n] + "\n"
    ensures s == s[..n] + ("\n" + s[n + 1..])
  {
  }

  lemma NewlineExists(s: string)
    requires s != "" && s[|s| - 1] == '\n'
    ensures FirstNewline(s) < |s|
  {
  }

  /** A text without a line feed is one segment. */
  lemma SegmentsOfRest(rest: string)
    requires IsLine(rest) && rest != ""
    ensures Segments(rest) == [rest] && FirstNewline(rest) == |rest|
  {
  }

  /** A text is empty, one rest, or a line and what follows. */
  lemma FirstLineOf(s: string)
    requires FirstNewline(s) < |s|
    ensures var n := FirstNewline(s);
            IsLine(s[..n]) && s == s[..n] + ("\n" + s[n + 1..])
            && Segments(s) == [s[..n] + "\n"] + Segments(s[n + 1..])
  {
    var n := FirstNewline(s);
    CutAtNewline(s, n);
    hide FirstNewline, Segments;
    SegmentsOfLine(s[..n], s[n + 1..]);
  }

  lemma NoNewline(s: string)
    requires FirstNewline(s) == |s|
    ensures IsLine(s)
  {
  }
}
