/** When a configuration write succeeds, which error it gives otherwise, and
    what the file holds afterwards
    (`apply_config_edits` in code-rs/app-server/src/message_processor.rs). */
module ConfigOutcomes {
  import opened Text
  import opened Trimming
  import opened Toml
  import opened ConfigService

  // ---------------------------------------------------------------- conditions

  /** The text a write starts from; a missing file counts as an empty one. */
  function Before(stored: Stored): string {
    match stored
    case Contents(text) => text
    case _ => ""
  }

  /** `tree` is the document in the file: none of its text may be left over, and
      a blank file is an empty document. */
  ghost predicate IsRead(codec: Codec, stored: Stored, tree: Toml) {
    && !stored.Unreadable?
    && if AllWhitespace(Before(stored)) then tree == Table(map[]) else codec.parse(Before(stored)) == Some(tree)
  }

  /** The caller expects no version, or that of the stored text. */
  predicate IsExpected(codec: Codec, stored: Stored, expected: Option<string>) {
    expected.None? || expected.value == codec.version(Before(stored))
  }

  /** Each tree is the one before with one more edit. */
  ghost predicate IsChain(trees: seq<Toml>, edits: seq<ConfigEdit>) {
    && |trees| == |edits| + 1
    && forall i | 0 <= i < |edits| :: IsEdited(trees[i], edits[i], trees[i + 1])
  }

  predicate IsEdited(before: Toml, edit: ConfigEdit, after: Toml) {
    && Segments(edit.keyPath) != []
    && after == Edit(before, Segments(edit.keyPath), edit.strategy, edit.value)
  }

  /** `text` is the print of the stored document with all edits made in order. */
  ghost predicate Yields(codec: Codec, stored: Stored, edits: seq<ConfigEdit>, text: string) {
    exists trees ::
      IsChain(trees, edits) && IsRead(codec, stored, trees[0]) && codec.render(trees[|edits|]) == Some(text)
  }

  // --------------------------------------------------------------------- edits

  lemma {:induction false} ChainExists(v: Toml, edits: seq<ConfigEdit>) returns (trees: seq<Toml>)
    requires ApplyAll(v, edits).Some?
    ensures IsChain(trees, edits) && trees[0] == v && ApplyAll(v, edits) == Some(trees[|edits|])
    decreases |edits|
  {
    hide Edit, Segments;
    if edits == [] {
      trees := [v];
    } else {
      var e := edits[0];
      var more := ChainExists(Edit(v, Segments(e.keyPath), e.strategy, e.value), edits[1..]);
      trees := [v] + more;
    }
  }

  lemma {:induction false} ChainApplies(trees: seq<Toml>, edits: seq<ConfigEdit>)
    requires IsChain(trees, edits)
    ensures ApplyAll(trees[0], edits) == Some(trees[|edits|])
    decreases |edits|
  {
    hide Edit, Segments;
    if edits != [] {
      assert IsEdited(trees[0], edits[0], trees[1]);
      forall i | 0 <= i < |edits| - 1
        ensures IsEdited(trees[1..][i], edits[1..][i], trees[1..][i + 1])
      {
        assert IsEdited(trees[i + 1], edits[i + 1], trees[i + 2]);
      }
      ChainApplies(trees[1..], edits[1..]);
    }
  }

  lemma ReadIff(codec: Codec, stored: Stored, tree: Toml)
    ensures IsRead(codec, stored, tree) <==> !stored.Unreadable? && Load(codec, TextOf(stored)) == Some(tree)
  {
    hide Trim, AllWhitespace;
    assert Before(stored) == TextOf(stored);
    BlankIffTrimmedAway(TextOf(stored));
  }

  lemma YieldsIff(codec: Codec, stored: Stored, edits: seq<ConfigEdit>, text: string)
    ensures Yields(codec, stored, edits, text) <==>
            && !stored.Unreadable? && Load(codec, TextOf(stored)).Some?
            && ApplyAll(Load(codec, TextOf(stored)).value, edits).Some?
            && codec.render(ApplyAll(Load(codec, TextOf(stored)).value, edits).value) == Some(text)
  {
    hide IsRead, Load, ApplyAll, IsEdited, TextOf;
    var loaded := Load(codec, TextOf(stored));
    if loaded.Some? {
      ReadIff(codec, stored, loaded.value);
      if !stored.Unreadable? && ApplyAll(loaded.value, edits).Some? {
        var trees := ChainExists(loaded.value, edits);
      }
    }
    forall trees | IsChain(trees, edits) && IsRead(codec, stored, trees[0])
      ensures loaded == Some(trees[0]) && !stored.Unreadable? && ApplyAll(trees[0], edits) == Some(trees[|edits|])
    {
      ReadIff(codec, stored, trees[0]);
      ChainApplies(trees, edits);
    }
  }

  // ------------------------------------------------------------------ theorems

  /** A batch is written exactly when its expectation holds, its edits yield a
      text and the disk takes all of it; then the file holds that text. */
  lemma WritesExactlyWhen(
      codec: Codec, stored: Stored, edits: seq<ConfigEdit>, expected: Option<string>, disk: Disk, text: string)
    ensures var (outcome, file) := Attempt(codec, stored, edits, expected, disk);
            && (outcome == Written(text) <==>
                  && IsExpected(codec, stored, expected) && Yields(codec, stored, edits, text)
                  && disk.directory && disk.opens && |text| <= disk.takes && disk.resolves)
            && (outcome == Written(text) ==> file == Contents(text))
  {
    hide Load, ApplyAll, Yields;
    YieldsIff(codec, stored, edits, text);
  }

  /** The error of a batch that is not written: a version other than the one
      expected comes before everything but an unreadable file, an empty key path
      before anything about the disk, and the directory before the file. */
  lemma FailsExactlyWhen(codec: Codec, stored: Stored, edits: seq<ConfigEdit>, expected: Option<string>, disk: Disk)
    ensures var outcome := Attempt(codec, stored, edits, expected, disk).0;
            && (outcome == Failed(VersionConflict) <==>
                  !stored.Unreadable? && !IsExpected(codec, stored, expected))
            && (outcome == Failed(PathNotFound) <==>
                  && IsExpected(codec, stored, expected) && (exists tree :: IsRead(codec, stored, tree))
                  && exists e :: e in edits && Segments(e.keyPath) == [])
            && (outcome == Failed(UserLayerNotFound) <==>
                  && IsExpected(codec, stored, expected) && (exists text :: Yields(codec, stored, edits, text))
                  && !disk.directory)
  {
    hide Load, ApplyAll, Yields, IsRead, Segments;
    var loaded := Load(codec, TextOf(stored));
    forall tree
      ensures IsRead(codec, stored, tree) <==> !stored.Unreadable? && loaded == Some(tree)
    {
      ReadIff(codec, stored, tree);
    }
    forall text
      ensures Yields(codec, stored, edits, text) <==>
              && !stored.Unreadable? && loaded.Some? && ApplyAll(loaded.value, edits).Some?
              && codec.render(ApplyAll(loaded.value, edits).value) == Some(text)
    {
      YieldsIff(codec, stored, edits, text);
    }
    if loaded.Some? {
      BatchFailsIffSomePathIsEmpty(loaded.value, edits);
    }
  }

  /** The file afterwards: changed only if there was a text to write and the file
      could be opened, and then it holds what the disk took of that text. */
  lemma FileAfter(codec: Codec, stored: Stored, edits: seq<ConfigEdit>, expected: Option<string>, disk: Disk)
    ensures var file := Attempt(codec, stored, edits, expected, disk).1;
            var tried := IsExpected(codec, stored, expected) && disk.directory && disk.opens;
            && (!(tried && exists text :: Yields(codec, stored, edits, text)) ==> file == stored)
            && forall text | tried && Yields(codec, stored, edits, text) ::
                 && (|text| <= disk.takes ==> file == Contents(text))
                 && (|text| > disk.takes && disk.splits ==> file == Unreadable)
                 && (|text| > disk.takes && !disk.splits ==> file == Contents(text[..disk.takes]))
  {
    hide Load, ApplyAll, Yields;
    forall text
      ensures var loaded := Load(codec, TextOf(stored));
              Yields(codec, stored, edits, text) <==>
              && !stored.Unreadable? && loaded.Some? && ApplyAll(loaded.value, edits).Some?
              && codec.render(ApplyAll(loaded.value, edits).value) == Some(text)
    {
      YieldsIff(codec, stored, edits, text);
    }
  }
}
