/** Removing arms from the union type in `ClientRequest.ts`
    (`filter_client_request_ts` and `split_type_alias` in
    code-rs/app-server-protocol/src/export.rs), without the pruning of unused
    imports. */
module UnionArms {
  import opened Text
  import opened TopLevelScan

  datatype Alias = Alias(prefix: string, body: string, suffix: string)

  /** `split_type_alias`: the text up to the first `=`, up to the last `;`, and
      the rest. */
  function SplitTypeAlias(content: string): (r: Option<Alias>)
    ensures r.Some? ==> content == r.value.prefix + r.value.body + r.value.suffix
  {
    var eq, semi := Find(content, '='), FindLast(content, ';');
    if eq.None? || semi.None? || semi.value <= eq.value then None
    else Some(Alias(content[..eq.value + 1], content[eq.value + 1..semi.value], content[semi.value..]))
  }

  /** Replacing the body leaves prefix and suffix recognisable, whatever the
      new body holds. */
  lemma SplitAfterReplacingBody(content: string, body: string)
    requires SplitTypeAlias(content).Some?
    ensures var a := SplitTypeAlias(content).value;
            SplitTypeAlias(a.prefix + body + a.suffix) == Some(a.(body := body))
  {
    var a := SplitTypeAlias(content).value;
    var eq, semi := Find(content, '=').value, FindLast(content, ';').value;
    var changed := a.prefix + body + a.suffix;
    assert changed[..eq + 1] == a.prefix;
    assert changed[..eq] == content[..eq];
    FindIsUnique(changed, '=', eq);
    var at := |a.prefix| + |body|;
    assert changed[at..] == a.suffix && changed[at + 1..] == content[semi + 1..];
    FindLastIsUnique(changed, ';', at);
    assert changed[eq + 1..at] == body;
  }

  // ----------------------------------------------------------------- filtering

  function Kept(keep: string -> bool, arms: seq<string>): (r: seq<string>)
    ensures forall a | a in r :: keep(a)
  {
    if arms == [] then [] else (if keep(arms[0]) then [arms[0]] else []) + Kept(keep, arms[1..])
  }

  lemma {:induction false} KeptIsSubsequence(keep: string -> bool, arms: seq<string>)
    ensures IsSubsequence(Kept(keep, arms), arms)
    ensures forall a :: multiset(Kept(keep, arms))[a] == if keep(a) then multiset(arms)[a] else 0
    ensures (forall a | a in arms :: keep(a)) ==> Kept(keep, arms) == arms
  {
    if arms != [] {
      KeptIsSubsequence(keep, arms[1..]);
      var kept := Kept(keep, arms);
      if keep(arms[0]) {
        assert kept[1..] == Kept(keep, arms[1..]);
      } else {
        assert kept == Kept(keep, arms[1..]);
      }
      assert arms == [arms[0]] + arms[1..];
    }
  }

  const ARM_SEPARATOR := " | "

  function FilteredBody(keep: string -> bool, body: string): string {
    Join(Kept(keep, Split(body, {'|'})), ARM_SEPARATOR)
  }

  /** The file after dropping the arms `keep` rejects. */
  function FilterArms(keep: string -> bool, content: string): string {
    var alias := SplitTypeAlias(content);
    if alias.None? then content
    else alias.value.prefix + FilteredBody(keep, alias.value.body) + alias.value.suffix
  }

  method FilterClientRequest(keep: string -> bool, content: string) returns (filtered: string)
    ensures filtered == FilterArms(keep, content)
  {
    var alias := SplitTypeAlias(content);
    if alias.None? {
      return content;
    }
    var arms := SplitTopLevelMulti(alias.value.body, {'|'});
    var body := Join(Kept(keep, arms), ARM_SEPARATOR);
    return alias.value.prefix + body + alias.value.suffix;
  }

  lemma SeparatorFacts()
    ensures " " + ['|'] + " " == ARM_SEPARATOR && AllWhitespace(" ") && AreDelimiters({'|'})
  {
  }

  lemma BodyArms(keep: string -> bool, body: string)
    ensures Split(FilteredBody(keep, body), {'|'}) == Kept(keep, Split(body, {'|'}))
  {
    hide Split, Join, Kept, AllWhitespace, AreDelimiters, IsSubsequence;
    var arms := Split(body, {'|'});
    KeptIsSubsequence(keep, arms);
    SeparatorFacts();
    SplitUndoesRejoin(body, Kept(keep, arms), " ", '|', " ", {'|'});
  }

  /** `left` are the arms `keep` takes, as often and in the order they stood. */
  ghost predicate AreTheKept(keep: string -> bool, arms: seq<string>, left: seq<string>) {
    && IsSubsequence(left, arms)
    && forall a :: multiset(left)[a] == if keep(a) then multiset(arms)[a] else 0
  }

  lemma FilteredAlias(keep: string -> bool, content: string)
    requires SplitTypeAlias(content).Some?
    ensures var a := SplitTypeAlias(content).value;
            SplitTypeAlias(FilterArms(keep, content)) == Some(a.(body := FilteredBody(keep, a.body)))
  {
    hide SplitTypeAlias, FilteredBody;
    SplitAfterReplacingBody(content, FilteredBody(keep, SplitTypeAlias(content).value.body));
  }

  lemma BodyTwice(keep: string -> bool, body: string)
    ensures FilteredBody(keep, FilteredBody(keep, body)) == FilteredBody(keep, body)
  {
    hide Split, Join, Kept;
    BodyArms(keep, body);
    KeptIsSubsequence(keep, Split(FilteredBody(keep, body), {'|'}));
  }

  /** The filtered file still is a type alias with the same text around it, and
      its arms are exactly the kept ones; filtering again changes nothing.
      `keep` may be any test, so this covers the test for experimental methods. */
  lemma FilteringLeavesExactlyTheKeptArms(keep: string -> bool, content: string)
    ensures FilterArms(keep, FilterArms(keep, content)) == FilterArms(keep, content)
    ensures SplitTypeAlias(content).Some? ==>
              var before, after := SplitTypeAlias(content), SplitTypeAlias(FilterArms(keep, content));
              && after.Some?
              && after.value.prefix == before.value.prefix && after.value.suffix == before.value.suffix
              && AreTheKept(keep, Split(before.value.body, {'|'}), Split(after.value.body, {'|'}))
  {
    hide Split, FilteredBody, SplitTypeAlias, Kept, IsSubsequence;
    if SplitTypeAlias(content).Some? {
      var a := SplitTypeAlias(content).value;
      FilteredAlias(keep, content);
      BodyTwice(keep, a.body);
      BodyArms(keep, a.body);
      KeptIsSubsequence(keep, Split(a.body, {'|'}));
    }
  }
}
