/** TOML values, the tree edits of the configuration service and their laws
    (code-rs/app-server/src/message_processor.rs). */
module Toml {
  import opened Text

  /** A leaf stands for every value that is not a table, arrays included. */
  datatype Toml = Leaf(text: string) | Table(entries: map<string, Toml>)

  type Path = seq<string>

  datatype Strategy = Replace | Upsert

  const EMPTY := Table(map[])

  function EntriesOf(v: Toml): map<string, Toml> {
    if v.Table? then v.entries else map[]
  }

  function Get(v: Toml, path: Path): Option<Toml> {
    if path == [] then Some(v)
    else if v.Table? && path[0] in v.entries then Get(v.entries[path[0]], path[1..])
    else None
  }

  /** `merge_toml_values`. */
  function Merge(target: Toml, incoming: Toml): Toml
    decreases incoming
  {
    if target.Table? && incoming.Table? then
      Table(map k | k in target.entries.Keys + incoming.entries.Keys ::
              if k !in incoming.entries then target.entries[k]
              else if k in target.entries then Merge(target.entries[k], incoming.entries[k])
              else incoming.entries[k])
    else incoming
  }

  /** What an edit leaves at its path. */
  function Final(strategy: Strategy, existing: Option<Toml>, value: Toml): Toml {
    if strategy.Upsert? && existing.Some? then Merge(existing.value, value) else value
  }

  function Child(v: Toml, key: string): Option<Toml> {
    if v.Table? && key in v.entries then Some(v.entries[key]) else None
  }

  /** Edits `v` at `path`; anything on the way that is not a table becomes one. */
  function Edit(v: Toml, path: Path, strategy: Strategy, value: Toml): Toml
    requires path != []
    decreases |path|, 1
  {
    Table(EntriesOf(v)[path[0] := EditChild(Child(v, path[0]), path, strategy, value)])
  }

  /** The new child for the first key of `path`. */
  function EditChild(child: Option<Toml>, path: Path, strategy: Strategy, value: Toml): Toml
    requires path != []
    decreases |path|, 0
  {
    if |path| == 1 then Final(strategy, child, value)
    else Edit(if child.Some? then child.value else EMPTY, path[1..], strategy, value)
  }

  // ---------------------------------------------------------------- lens laws

  lemma {:induction false} GetAlong(v: Toml, p: Path, q: Path)
    ensures Get(v, p + q) == if Get(v, p).Some? then Get(Get(v, p).value, q) else None
    decreases |p|
  {
    if p == [] {
      assert p + q == q;
    } else if Child(v, p[0]).Some? {
      GetAlong(v.entries[p[0]], p[1..], q);
      assert (p + q)[1..] == p[1..] + q;
    }
  }

  /** After an edit its path holds the value set, or merged with what was there. */
  lemma {:induction false} EditThenGet(v: Toml, path: Path, strategy: Strategy, value: Toml)
    requires path != []
    ensures Get(Edit(v, path, strategy, value), path)
            == Some(if strategy == Upsert && Get(v, path).Some? then Merge(Get(v, path).value, value) else value)
    decreases |path|
  {
    var child := Child(v, path[0]);
    if |path| == 1 {
      assert path[1..] == [];
    } else {
      EditThenGet(if child.Some? then child.value else EMPTY, path[1..], strategy, value);
    }
  }

  ghost predicate Comparable(p: Path, q: Path) {
    p <= q || q <= p
  }

  /** Every path incomparable with the edited one reads as before. */
  lemma {:induction false} EditFrames(v: Toml, path: Path, strategy: Strategy, value: Toml, q: Path)
    requires path != [] && !Comparable(path, q)
    ensures Get(Edit(v, path, strategy, value), q) == Get(v, q)
    decreases |path|
  {
    assert q != [];
    if q[0] == path[0] {
      assert path == [path[0]] + path[1..] && q == [q[0]] + q[1..];
      assert |path| == 1 ==> path <= q;
      var child := Child(v, path[0]);
      var below := if child.Some? then child.value else EMPTY;
      EditFrames(below, path[1..], strategy, value, q[1..]);
      assert q[1..] != [];
    }
  }

  /** A path above the edited one reads as its old value, edited below. */
  lemma {:induction false} EditAbove(v: Toml, p: Path, rest: Path, strategy: Strategy, value: Toml)
    requires rest != []
    ensures Get(Edit(v, p + rest, strategy, value), p)
            == Some(Edit(if Get(v, p).Some? then Get(v, p).value else EMPTY, rest, strategy, value))
    decreases |p|
  {
    if p == [] {
      assert p + rest == rest;
    } else {
      var child := Child(v, p[0]);
      assert (p + rest)[1..] == p[1..] + rest;
      EditAbove(if child.Some? then child.value else EMPTY, p[1..], rest, strategy, value);
    }
  }

  lemma {:induction false} EditsCommute(
      v: Toml, p: Path, s: Strategy, x: Toml, q: Path, t: Strategy, y: Toml)
    requires !Comparable(p, q)
    ensures p != [] && q != []
    ensures Edit(Edit(v, p, s, x), q, t, y) == Edit(Edit(v, q, t, y), p, s, x)
    decreases |p|, 1
  {
    assert p != [] && q != [];
    hide EditChild;
    var entries, left, right := EntriesOf(v), Edit(Edit(v, p, s, x), q, t, y), Edit(Edit(v, q, t, y), p, s, x);
    if p[0] == q[0] {
      ChildrenCommute(Child(v, p[0]), p, s, x, q, t, y);
    } else {
      assert Child(Edit(v, p, s, x), q[0]) == Child(v, q[0]);
      assert Child(Edit(v, q, t, y), p[0]) == Child(v, p[0]);
    }
    assert left.entries == right.entries;
  }

  lemma {:induction false} ChildrenCommute(
      child: Option<Toml>, p: Path, s: Strategy, x: Toml, q: Path, t: Strategy, y: Toml)
    requires !Comparable(p, q) && p != [] && q != [] && p[0] == q[0]
    ensures EditChild(Some(EditChild(child, p, s, x)), q, t, y) == EditChild(Some(EditChild(child, q, t, y)), p, s, x)
    decreases |p|, 0
  {
    hide Edit;
    assert p == [p[0]] + p[1..] && q == [q[0]] + q[1..];
    assert !Comparable(p[1..], q[1..]);
    assert |p| == 1 ==> p <= q;
    assert |q| == 1 ==> q <= p;
    EditsCommute(if child.Some? then child.value else EMPTY, p[1..], s, x, q[1..], t, y);
  }

  /** The last of two replacements at one path wins. */
  lemma {:induction false} LastReplacementWins(v: Toml, path: Path, s: Strategy, x: Toml, y: Toml)
    requires path != []
    ensures Edit(Edit(v, path, s, x), path, Replace, y) == Edit(v, path, Replace, y)
    decreases |path|
  {
    if |path| > 1 {
      var child := Child(v, path[0]);
      LastReplacementWins(if child.Some? then child.value else EMPTY, path[1..], s, x, y);
    }
    assert Edit(Edit(v, path, s, x), path, Replace, y).entries == Edit(v, path, Replace, y).entries;
  }

  // -------------------------------------------------------------------- merge

  lemma {:induction false} MergeWithItself(a: Toml)
    ensures Merge(a, a) == a
  {
    if a.Table? {
      forall k | k in a.entries
        ensures Merge(a.entries[k], a.entries[k]) == a.entries[k]
      {
        MergeWithItself(a.entries[k]);
      }
      assert Merge(a, a).entries == a.entries;
    }
  }

  /** Merging the same value again changes nothing. */
  lemma {:induction false} MergeIsIdempotent(target: Toml, incoming: Toml)
    ensures Merge(Merge(target, incoming), incoming) == Merge(target, incoming)
    decreases incoming
  {
    if target.Table? && incoming.Table? {
      var once := Merge(target, incoming);
      forall k | k in incoming.entries
        ensures Merge(once.entries[k], incoming.entries[k]) == once.entries[k]
      {
        if k in target.entries {
          MergeIsIdempotent(target.entries[k], incoming.entries[k]);
        } else {
          MergeWithItself(incoming.entries[k]);
        }
      }
      assert Merge(once, incoming).entries == once.entries;
    } else {
      MergeWithItself(incoming);
    }
  }

  /** Some strict prefix of `q` is a leaf of `v`. */
  ghost predicate CutShort(v: Toml, q: Path) {
    q != [] && (v.Leaf? || (q[0] in v.entries && CutShort(v.entries[q[0]], q[1..])))
  }

  /** Merging is an overlay: what the result holds at any path. */
  lemma {:induction false} MergeOverlays(target: Toml, incoming: Toml, q: Path)
    ensures Get(Merge(target, incoming), q) ==
            if CutShort(incoming, q) then None
            else if Get(incoming, q).None? then Get(target, q)
            else if Get(target, q).None? then Get(incoming, q)
            else Some(Merge(Get(target, q).value, Get(incoming, q).value))
    decreases |q|
  {
    if q != [] && incoming.Table? && q[0] in incoming.entries {
      var k, rest := q[0], q[1..];
      if target.Table? && k in target.entries {
        MergeOverlays(target.entries[k], incoming.entries[k], rest);
      } else {
        MergeOverlays(incoming.entries[k], incoming.entries[k], rest);
        MergeWithItself(incoming.entries[k]);
        if CutShort(incoming.entries[k], rest) {
          CutShortReadsNothing(incoming.entries[k], rest);
        }
      }
    }
  }

  lemma {:induction false} CutShortReadsNothing(v: Toml, q: Path)
    requires CutShort(v, q)
    ensures Get(v, q) == None
    decreases |q|
  {
    if v.Table? {
      CutShortReadsNothing(v.entries[q[0]], q[1..]);
    }
  }

  /** A path missing in the incoming value keeps what the target has there if
      and only if there is nothing there or no leaf of the incoming value
      stands on the way (an incoming leaf replaces a whole table). */
  lemma MissingPathsAreKeptIff(target: Toml, incoming: Toml, q: Path)
    requires Get(incoming, q).None?
    ensures Get(Merge(target, incoming), q) == Get(target, q)
            <==> Get(target, q).None? || !CutShort(incoming, q)
  {
  }

  /** The smallest case in which a missing path is lost. */
  lemma LeafReplacesWholeTable()
    ensures var target := Table(map["a" := Table(map["b" := Leaf("1")])]);
            var incoming := Table(map["a" := Leaf("2")]);
            && Get(incoming, ["a", "b"]) == None
            && Get(target, ["a", "b"]) == Some(Leaf("1"))
            && Get(Merge(target, incoming), ["a", "b"]) == None
  {
  }

  // ---------------------------------------------------------------- key paths

  predicate IsSegment(s: string) {
    s != "" && '.' !in s
  }

  /** `key_path.split('.')` without the empty pieces; `piece` is what has been
      read of the current one. */
  function SegmentsFrom(piece: string, s: string): Path
    decreases |s|
  {
    if s == "" then Close(piece)
    else if s[0] == '.' then Close(piece) + SegmentsFrom("", s[1..])
    else SegmentsFrom(piece + [s[0]], s[1..])
  }

  function Close(piece: string): Path {
    if piece == "" then [] else [piece]
  }

  function Segments(keyPath: string): Path {
    SegmentsFrom("", keyPath)
  }

  function JoinDots(path: Path): string {
    if path == [] then "" else if |path| == 1 then path[0] else path[0] + ("." + JoinDots(path[1..]))
  }

  lemma {:induction false} ReadPiece(piece: string, more: string, rest: string)
    requires '.' !in more
    ensures SegmentsFrom(piece, more + rest) == SegmentsFrom(piece + more, rest)
    decreases |more|
  {
    if more == "" {
      assert more + rest == rest && piece + more == piece;
    } else {
      assert (more + rest)[1..] == more[1..] + rest && (more + rest)[0] == more[0];
      ReadPiece(piece + [more[0]], more[1..], rest);
      assert piece + [more[0]] + more[1..] == piece + more;
    }
  }

  /** Reading one segment and what follows it. */
  lemma ReadSegment(segment: string, rest: string)
    requires IsSegment(segment) && (rest == "" || rest[0] == '.')
    ensures Segments(segment + rest) == [segment] + if rest == "" then [] else Segments(rest[1..])
  {
    ReadPiece("", segment, rest);
    assert "" + segment == segment;
  }

  /** A key path written with single dots is read back. */
  lemma {:induction false} SplitUndoesJoin(path: Path)
    requires forall s | s in path :: IsSegment(s)
    ensures Segments(JoinDots(path)) == path
  {
    if path != [] {
      assert path[0] in path;
      var tail := path[1..];
      var rest := if tail == [] then "" else "." + JoinDots(tail);
      assert JoinDots(path) == path[0] + rest;
      hide JoinDots, Segments, IsSegment;
      ReadSegment(path[0], rest);
      assert path == [path[0]] + tail;
      if tail != [] {
        SplitUndoesJoin(tail);
        assert rest[1..] == JoinDots(tail);
      }
    }
  }

  /** A key path has no segments exactly when it consists of dots. */
  lemma {:induction false} NoSegmentsIffOnlyDots(piece: string, s: string)
    ensures SegmentsFrom(piece, s) == [] <==> piece == "" && forall i | 0 <= i < |s| :: s[i] == '.'
    decreases |s|
  {
    if s != "" {
      if s[0] == '.' {
        NoSegmentsIffOnlyDots("", s[1..]);
        assert forall i | 0 < i < |s| :: s[i] == s[1..][i - 1];
      } else {
        NoSegmentsIffOnlyDots(piece + [s[0]], s[1..]);
      }
    }
  }
}
