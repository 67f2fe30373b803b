/** The configuration service: editing a TOML document through a cursor, and
    applying a batch of edits to the configuration file
    (code-rs/app-server/src/message_processor.rs). */
module ConfigService {
  import opened Text
  import opened Toml

  // ------------------------------------------------------------------ cursors

  /** `*current = x` for the cursor reached by `path`. */
  function Put(v: Toml, path: Path, x: Toml): Toml
    requires Get(v, path).Some?
    decreases |path|
  {
    if path == [] then x else Table(v.entries[path[0] := Put(v.entries[path[0]], path[1..], x)])
  }

  lemma {:induction false} PutThenGet(v: Toml, path: Path, x: Toml, y: Toml)
    requires Get(v, path).Some?
    ensures Get(Put(v, path, x), path) == Some(x)
    ensures Put(Put(v, path, x), path, y) == Put(v, path, y)
    ensures Put(v, path, Get(v, path).value) == v
    decreases |path|
  {
    if path != [] {
      PutThenGet(v.entries[path[0]], path[1..], x, y);
    }
  }

  lemma {:induction false} PutAlong(v: Toml, p: Path, q: Path, x: Toml)
    requires Get(v, p + q).Some?
    ensures Get(v, p).Some? && Get(Get(v, p).value, q).Some?
    ensures Put(v, p + q, x) == Put(v, p, Put(Get(v, p).value, q, x))
    decreases |p|
  {
    if p == [] {
      assert p + q == q;
    } else {
      assert (p + q)[1..] == p[1..] + q;
      PutAlong(v.entries[p[0]], p[1..], q, x);
    }
  }

  /** Editing below a cursor is editing the subtree it points at. */
  lemma {:induction false} EditIsPut(v: Toml, p: Path, rest: Path, s: Strategy, x: Toml)
    requires Get(v, p).Some? && rest != []
    ensures Edit(v, p + rest, s, x) == Put(v, p, Edit(Get(v, p).value, rest, s, x))
    decreases |p|
  {
    if p == [] {
      assert p + rest == rest;
    } else {
      assert (p + rest)[1..] == p[1..] + rest;
      EditIsPut(v.entries[p[0]], p[1..], rest, s, x);
    }
  }

  /** Changing the subtree under a cursor in a way the edit does not see. */
  lemma EditAfterPut(v: Toml, p: Path, rest: Path, c: Toml, s: Strategy, x: Toml)
    requires Get(v, p).Some? && rest != [] && Edit(c, rest, s, x) == Edit(Get(v, p).value, rest, s, x)
    ensures Edit(Put(v, p, c), p + rest, s, x) == Edit(v, p + rest, s, x)
  {
    PutThenGet(v, p, c, Edit(c, rest, s, x));
    EditIsPut(v, p, rest, s, x);
    EditIsPut(Put(v, p, c), p, rest, s, x);
  }

  /** The merge of the keys of `incoming` in `done` into `target`. */
  function MergeSome(target: map<string, Toml>, incoming: map<string, Toml>, done: set<string>): map<string, Toml>
    requires done <= incoming.Keys
  {
    map k | k in target.Keys + done ::
      if k !in done then target[k] else if k in target then Merge(target[k], incoming[k]) else incoming[k]
  }

  /** A TOML tree that the edit functions change in place. */
  class Document {
    var root: Toml

    constructor (initial: Toml)
      ensures root == initial
    {
      root := initial;
    }

    /** Moves the cursor from the root to the parent of the last segment,
        making tables on the way; this does not change what the edit at
        `segments` gives. */
    method WalkToParent(segments: Path, ghost s: Strategy, ghost x: Toml) returns (current: Path)
      requires segments != []
      modifies this
      ensures current + [segments[|segments| - 1]] == segments
      ensures Get(root, current).Some? && Get(root, current).value.Table?
      ensures Edit(root, segments, s, x) == Edit(old(root), segments, s, x)
    {
      hide Edit, EditChild;
      current := [];
      var i := 0;
      while i < |segments| - 1
        invariant 0 <= i <= |segments| - 1 && current == segments[..i]
        invariant Get(root, current).Some?
        invariant Edit(root, segments, s, x) == Edit(old(root), segments, s, x)
      {
        assert segments == current + segments[i..];
        MakeTable(current, segments[i..], s, x);
        var key := segments[i];
        var table := Get(root, current).value.entries;
        if key !in table {
          PutThenGet(root, current, Table(table[key := EMPTY]), EMPTY);
          InsertingEmptyIsUnseen(table, segments[i..], s, x);
          EditAfterPut(root, current, segments[i..], Table(table[key := EMPTY]), s, x);
          root := Put(root, current, Table(table[key := EMPTY]));
        }
        GetAlong(root, current, [key]);
        ReadChild(Get(root, current).value, key);
        assert segments[..i + 1] == segments[..i] + [key];
        current := current + [key];
        i := i + 1;
      }
      assert segments == current + segments[i..];
      MakeTable(current, segments[i..], s, x);
    }

    /** `if !current.is_table() { *current = Table }`. */
    method MakeTable(current: Path, ghost rest: Path, ghost s: Strategy, ghost x: Toml)
      requires rest != [] && Get(root, current).Some?
      modifies this
      ensures Get(root, current).Some? && Get(root, current).value.Table?
      ensures Edit(root, current + rest, s, x) == Edit(old(root), current + rest, s, x)
    {
      if !Get(root, current).value.Table? {
        PutThenGet(root, current, EMPTY, EMPTY);
        EditAfterPut(root, current, rest, EMPTY, s, x);
        root := Put(root, current, EMPTY);
      }
    }

    method SetTomlPath(keyPath: string, value: Toml) returns (found: bool)
      modifies this
      ensures found <==> Segments(keyPath) != []
      ensures root == if found then Edit(old(root), Segments(keyPath), Replace, value) else old(root)
    {
      var segments := Segments(keyPath);
      if segments == [] {
        return false;
      }
      var current := WalkToParent(segments, Replace, value);
      var key := segments[|segments| - 1];
      EditIsPut(root, current, [key], Replace, value);
      root := Put(root, current, Table(Get(root, current).value.entries[key := value]));
      return true;
    }

    method UpsertTomlPath(keyPath: string, value: Toml) returns (found: bool)
      modifies this
      ensures found <==> Segments(keyPath) != []
      ensures root == if found then Edit(old(root), Segments(keyPath), Upsert, value) else old(root)
    {
      var segments := Segments(keyPath);
      if segments == [] {
        return false;
      }
      var current := WalkToParent(segments, Upsert, value);
      var key := segments[|segments| - 1];
      var table := Get(root, current).value.entries;
      EditIsPut(root, current, [key], Upsert, value);
      GetAlong(root, current, [key]);
      ReadChild(Get(root, current).value, key);
      if key in table {
        PutAlong(root, current, [key], Merge(table[key], value));
        PutChild(Get(root, current).value, key, Merge(table[key], value));
        MergeTomlValues(current + [key], value);
      } else {
        root := Put(root, current, Table(table[key := value]));
      }
      return true;
    }

    /** Merges `incoming` into the value the cursor points at. */
    method MergeTomlValues(current: Path, incoming: Toml)
      requires Get(root, current).Some?
      modifies this
      ensures Get(old(root), current).Some?
      ensures root == Put(old(root), current, Merge(Get(old(root), current).value, incoming))
      decreases incoming
    {
      hide Merge, MergeSome, Put;
      ghost var before := root;
      var target := Get(root, current).value;
      if target.Table? && incoming.Table? {
        var unvisited := incoming.entries.Keys;
        ghost var done: set<string> := {};
        PutThenGet(root, current, target, target);
        MergeNone(target.entries, incoming.entries);
        while unvisited != {}
          invariant unvisited <= incoming.entries.Keys && done == incoming.entries.Keys - unvisited
          invariant root == Put(before, current, Table(MergeSome(target.entries, incoming.entries, done)))
        {
          var key :| key in unvisited;
          unvisited := unvisited - {key};
          ghost var merged := Table(MergeSome(target.entries, incoming.entries, done));
          ghost var next := Table(MergeSome(target.entries, incoming.entries, done + {key}));
          MergeOneMore(target.entries, incoming.entries, done, key);
          PutThenGet(before, current, merged, next);
          GetAlong(root, current, [key]);
          ReadChild(merged, key);
          var table := Get(root, current).value.entries;
          if key in table {
            PutAlong(root, current, [key], Merge(table[key], incoming.entries[key]));
            PutChild(merged, key, Merge(table[key], incoming.entries[key]));
            MergeTomlValues(current + [key], incoming.entries[key]);
          } else {
            root := Put(root, current, Table(table[key := incoming.entries[key]]));
          }
          done := done + {key};
        }
        assert done == incoming.entries.Keys;
        MergeAll(target, incoming);
      } else {
        MergeLeaf(target, incoming);
        root := Put(root, current, incoming);
      }
    }
  }

  lemma MergeNone(target: map<string, Toml>, incoming: map<string, Toml>)
    ensures MergeSome(target, incoming, {}) == target
  {
  }

  lemma MergeOneMore(target: map<string, Toml>, incoming: map<string, Toml>, done: set<string>, key: string)
    requires done <= incoming.Keys && key in incoming && key !in done
    ensures var merged := MergeSome(target, incoming, done);
            && (key in merged <==> key in target)
            && MergeSome(target, incoming, done + {key}) ==
               merged[key := if key in merged then Merge(merged[key], incoming[key]) else incoming[key]]
  {
  }

  lemma MergeAll(target: Toml, incoming: Toml)
    requires target.Table? && incoming.Table?
    ensures Table(MergeSome(target.entries, incoming.entries, incoming.entries.Keys)) == Merge(target, incoming)
  {
  }

  lemma MergeLeaf(target: Toml, incoming: Toml)
    requires !target.Table? || !incoming.Table?
    ensures Merge(target, incoming) == incoming
  {
  }

  lemma ReadChild(v: Toml, key: string)
    ensures Get(v, [key]) == Child(v, key)
  {
  }

  lemma PutChild(v: Toml, key: string, x: Toml)
    requires Child(v, key).Some?
    ensures Get(v, [key]).Some? && Put(v, [key], x) == Table(v.entries[key := x])
  {
  }

  /** An empty table put where the edit would make one. */
  lemma InsertingEmptyIsUnseen(table: map<string, Toml>, rest: Path, s: Strategy, x: Toml)
    requires |rest| > 1 && rest[0] !in table
    ensures Edit(Table(table[rest[0] := EMPTY]), rest, s, x) == Edit(Table(table), rest, s, x)
  {
  }

  // --------------------------------------------------------------- the file

  /** What the service uses of its libraries: the TOML parser and printer and
      the digest that serves as version. */
  datatype Codec = Codec(parse: string -> Option<Toml>, render: Toml -> Option<string>, version: string -> string)

  datatype Stored = Missing | Unreadable | Contents(text: string)

  datatype ConfigEdit = ConfigEdit(keyPath: string, value: Toml, strategy: Strategy)

  datatype WriteError = VersionConflict | ValidationError | PathNotFound | UserLayerNotFound

  datatype Outcome = Written(text: string) | Failed(error: WriteError)

  /** How the file system behaves during one write: can the directory be made,
      does the file open (which empties it), how many characters does it take
      before a write fails, does the failing write cut a character in two, and
      can the path be made absolute afterwards? */
  datatype Disk = Disk(directory: bool, opens: bool, takes: nat, splits: bool, resolves: bool)

  function TextOf(stored: Stored): string {
    if stored.Contents? then stored.text else ""
  }

  /** A blank file is an empty table. */
  function Load(codec: Codec, text: string): Option<Toml> {
    if Trim(text) == "" then Some(EMPTY) else codec.parse(text)
  }

  /** Every edit of the batch, in order; none if one has an empty key path. */
  function ApplyAll(v: Toml, edits: seq<ConfigEdit>): Option<Toml>
    decreases |edits|
  {
    if edits == [] then Some(v)
    else if Segments(edits[0].keyPath) == [] then None
    else ApplyAll(Edit(v, Segments(edits[0].keyPath), edits[0].strategy, edits[0].value), edits[1..])
  }

  /** Reading, checking the version, parsing, editing and printing: the text to
      write, before anything is written. */
  function Prepare(codec: Codec, stored: Stored, edits: seq<ConfigEdit>, expected: Option<string>): Outcome {
    if stored.Unreadable? then Failed(ValidationError)
    else if expected.Some? && expected.value != codec.version(TextOf(stored)) then Failed(VersionConflict)
    else
      var tree := Load(codec, TextOf(stored));
      if tree.None? then Failed(ValidationError)
      else
        var edited := ApplyAll(tree.value, edits);
        if edited.None? then Failed(PathNotFound)
        else
          var text := codec.render(edited.value);
          if text.None? then Failed(ValidationError) else Written(text.value)
  }

  /** What a write that opened the file leaves in it: all of the text or, when
      the write fails midway, the part it took; a text cut inside a character
      cannot be read again. */
  function Left(text: string, disk: Disk): Stored {
    if |text| <= disk.takes then Contents(text)
    else if disk.splits then Unreadable
    else Contents(text[..disk.takes])
  }

  /** What applying a batch comes to, and the file it leaves. */
  function Attempt(codec: Codec, stored: Stored, edits: seq<ConfigEdit>, expected: Option<string>, disk: Disk)
    : (Outcome, Stored)
  {
    var prepared := Prepare(codec, stored, edits, expected);
    if prepared.Failed? then (prepared, stored)
    else if !disk.directory then (Failed(UserLayerNotFound), stored)
    else if !disk.opens then (Failed(ValidationError), stored)
    else if disk.takes < |prepared.text| || !disk.resolves then (Failed(ValidationError), Left(prepared.text, disk))
    else (prepared, Left(prepared.text, disk))
  }

  lemma ApplyNext(v: Toml, edits: seq<ConfigEdit>, i: nat)
    requires i < |edits|
    ensures ApplyAll(v, edits[i..]) ==
            if Segments(edits[i].keyPath) == [] then None
            else ApplyAll(Edit(v, Segments(edits[i].keyPath), edits[i].strategy, edits[i].value), edits[i + 1..])
  {
  }

  lemma ApplyNone(v: Toml)
    ensures ApplyAll(v, []) == Some(v)
  {
  }

  class ConfigFile {
    var stored: Stored

    constructor (initial: Stored)
      ensures stored == initial
    {
      stored := initial;
    }

    /** Nothing is written before the whole batch has been applied and printed.
        An error after that may leave the file emptied, cut short or replaced. */
    method ApplyConfigEdits(codec: Codec, edits: seq<ConfigEdit>, expected: Option<string>, disk: Disk)
      returns (r: Outcome)
      modifies this
      ensures (r, stored) == Attempt(codec, old(stored), edits, expected, disk)
      ensures r.Written? ==> stored == Contents(r.text)
      ensures stored != old(stored) ==> disk.directory && disk.opens
    {
      hide Edit, Segments, Trim, ApplyAll;
      if stored.Unreadable? {
        return Failed(ValidationError);
      }
      var text := TextOf(stored);
      if expected.Some? && expected.value != codec.version(text) {
        return Failed(VersionConflict);
      }
      var tree := Load(codec, text);
      if tree.None? {
        return Failed(ValidationError);
      }
      var document := new Document(tree.value);
      assert edits[0..] == edits;
      for i := 0 to |edits|
        invariant fresh(document)
        invariant stored == old(stored)
        invariant ApplyAll(tree.value, edits) == ApplyAll(document.root, edits[i..])
      {
        var edit := edits[i];
        ApplyNext(document.root, edits, i);
        var found;
        match edit.strategy {
          case Replace => found := document.SetTomlPath(edit.keyPath, edit.value);
          case Upsert => found := document.UpsertTomlPath(edit.keyPath, edit.value);
        }
        if !found {
          return Failed(PathNotFound);
        }
      }
      ApplyNone(document.root);
      assert edits[|edits|..] == [];
      var serialized := codec.render(document.root);
      if serialized.None? {
        return Failed(ValidationError);
      }
      if !disk.directory {
        return Failed(UserLayerNotFound);
      }
      if !disk.opens {
        return Failed(ValidationError);
      }
      stored := Contents("");
      if disk.takes < |serialized.value| {
        stored := if disk.splits then Unreadable else Contents(serialized.value[..disk.takes]);
        return Failed(ValidationError);
      }
      stored := Contents(serialized.value);
      if !disk.resolves {
        return Failed(ValidationError);
      }
      return Written(serialized.value);
    }
  }

  lemma {:induction false} BatchFailsIffSomePathIsEmpty(v: Toml, edits: seq<ConfigEdit>)
    ensures ApplyAll(v, edits).None? <==> exists e :: e in edits && Segments(e.keyPath) == []
    decreases |edits|
  {
    if edits != [] {
      assert edits[0] in edits && edits == [edits[0]] + edits[1..];
      if Segments(edits[0].keyPath) != [] {
        var edit := edits[0];
        BatchFailsIffSomePathIsEmpty(Edit(v, Segments(edit.keyPath), edit.strategy, edit.value), edits[1..]);
      }
    }
  }

  lemma {:induction false} ApplyInTwoSteps(v: Toml, first: seq<ConfigEdit>, second: seq<ConfigEdit>)
    ensures ApplyAll(v, first + second) ==
            if ApplyAll(v, first).Some? then ApplyAll(ApplyAll(v, first).value, second) else None
    decreases |first|
  {
    hide Edit, Segments;
    if first == [] {
      assert first + second == second;
    } else if Segments(first[0].keyPath) != [] {
      assert (first + second)[1..] == first[1..] + second;
      ApplyInTwoSteps(Edit(v, Segments(first[0].keyPath), first[0].strategy, first[0].value), first[1..], second);
    }
  }

  /** Printing a tree and reading it gives the tree back. */
  ghost predicate Inverse(codec: Codec) {
    forall v :: codec.render(v).Some? ==> Load(codec, codec.render(v).value) == Some(v)
  }

  /** Two batches that end in an error, one because the disk was full and one
      because the path could not be resolved, and both change the file. */
  lemma AnErrorCanChangeTheFile()
    ensures var codec := Codec(text => Some(EMPTY), tree => Some("a = 1"), text => text);
            && Attempt(codec, Contents("b = 2"), [], None, Disk(true, true, 0, false, true))
               == (Failed(ValidationError), Contents(""))
            && Attempt(codec, Contents("b = 2"), [], None, Disk(true, true, 5, false, false))
               == (Failed(ValidationError), Contents("a = 1"))
  {
  }

  /** An error leaves the file as it was exactly when it came before the file
      was opened, or when the file held just the part of the new text that the
      write got onto the disk. */
  lemma AnErrorKeepsTheFileIff(
      codec: Codec, stored: Stored, edits: seq<ConfigEdit>, expected: Option<string>, disk: Disk)
    requires Attempt(codec, stored, edits, expected, disk).0.Failed?
    ensures var prepared := Prepare(codec, stored, edits, expected);
            Attempt(codec, stored, edits, expected, disk).1 == stored
            <==> || prepared.Failed?
                 || !disk.directory
                 || !disk.opens
                 || (&& stored.Contents? && stored.text <= prepared.text
                     && if |prepared.text| <= disk.takes then |stored.text| == |prepared.text|
                        else !disk.splits && |stored.text| == disk.takes)
  {
    var prepared := Prepare(codec, stored, edits, expected);
    hide Load, ApplyAll;
    if prepared.Written? && stored.Contents? && stored.text <= prepared.text {
      assert stored.text == prepared.text[..|stored.text|];
    }
  }

  /** What was written is what the next write starts from. */
  lemma WrittenTreeIsReadBack(codec: Codec, stored: Stored, edits: seq<ConfigEdit>, expected: Option<string>)
    requires Inverse(codec) && Prepare(codec, stored, edits, expected).Written?
    ensures Load(codec, TextOf(stored)).Some?
    ensures Load(codec, Prepare(codec, stored, edits, expected).text)
            == ApplyAll(Load(codec, TextOf(stored)).value, edits)
  {
    hide Load, ApplyAll, Trim;
    var tree := Load(codec, TextOf(stored)).value;
    var edited := ApplyAll(tree, edits).value;
    assert codec.render(edited).Some?;
  }

  /** Two writes, the second expecting the version the first returned, are one
      batch: the same outcome on any disk and, where the disk is written to, the
      same file. */
  lemma TwoWritesAreOneBatch(
      codec: Codec, stored: Stored, first: seq<ConfigEdit>, second: seq<ConfigEdit>,
      expected: Option<string>, firstDisk: Disk, disk: Disk)
    requires Inverse(codec) && Attempt(codec, stored, first, expected, firstDisk).0.Written?
    ensures var (written, left) := Attempt(codec, stored, first, expected, firstDisk);
            var (after, file) := Attempt(codec, left, second, Some(codec.version(written.text)), disk);
            var (atOnce, fileAtOnce) := Attempt(codec, stored, first + second, expected, disk);
            && after == atOnce
            && (Prepare(codec, stored, first + second, expected).Written? && disk.directory && disk.opens
                ==> file == fileAtOnce)
  {
    hide ApplyAll, Load, Trim, Inverse;
    WrittenTreeIsReadBack(codec, stored, first, expected);
    ApplyInTwoSteps(Load(codec, TextOf(stored)).value, first, second);
  }
}
