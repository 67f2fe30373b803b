/** Removing the definitions of experimental types from a schema bundle
    (code-rs/app-server-protocol/src/export.rs). */
module TypePruning {
  import opened Text
  import opened Json
  import opened MethodPruning

  predicate HasSuffix(s: string, suffix: string) {
    |suffix| <= |s| && s[|s| - |suffix|..] == suffix
  }

  /** `definition_matches_type`. */
  predicate MatchesType(name: string, typeName: string) {
    name == typeName || HasSuffix(name, "::" + typeName)
  }

  predicate MatchesAny(name: string, types: set<string>) {
    exists t :: t in types && MatchesType(name, t)
  }

  const SCHEMA_KEYS := {"type", "properties", "anyOf", "oneOf", "allOf"}

  /** `is_namespace_map`. */
  predicate IsNamespaceMap(v: Json) {
    v.Obj? && forall e | e in v.entries :: !HasPrefix(e.key, "$") && e.key !in SCHEMA_KEYS && e.value.Obj?
  }

  /** `remove_experimental_method_type_definitions_map`. */
  function RemoveTypes(definitions: seq<Entry>, types: set<string>): seq<Entry> {
    if definitions == [] then []
    else
      var e := definitions[0];
      (if MatchesAny(e.key, types) then [] else [Entry(e.key, RemoveInside(e.value, types))])
      + RemoveTypes(definitions[1..], types)
  }

  function RemoveInside(v: Json, types: set<string>): Json {
    if IsNamespaceMap(v) then Obj(RemoveTypes(v.entries, types)) else v
  }

  /** The keys to remove, taken out. */
  method KeepUnmatched(definitions: seq<Entry>, types: set<string>) returns (remaining: seq<Entry>)
    ensures remaining == Unmatched(definitions, types)
  {
    hide MatchesAny, Unmatched;
    remaining := [];
    assert definitions[..0] == [];
    RemoveNothing(types);
    for i := 0 to |definitions|
      invariant remaining == Unmatched(definitions[..i], types)
    {
      UnmatchedAppend(definitions[..i], definitions[i], types);
      assert definitions[..i] + [definitions[i]] == definitions[..i + 1];
      if !MatchesAny(definitions[i].key, types) {
        remaining := remaining + [definitions[i]];
      }
    }
    assert definitions[..|definitions|] == definitions;
  }

  method RemoveTypeDefinitions(definitions: seq<Entry>, types: set<string>) returns (result: seq<Entry>)
    ensures result == RemoveTypes(definitions, types)
    decreases definitions
  {
    hide MatchesAny, IsNamespaceMap, RemoveTypes, RemoveInside, Unmatched;
    var remaining := KeepUnmatched(definitions, types);
    UnmatchedMembers(definitions, types);
    result := [];
    for i := 0 to |remaining|
      invariant |result| == i
      invariant forall j | 0 <= j < i :: result[j] == Entry(remaining[j].key, RemoveInside(remaining[j].value, types))
    {
      var value := remaining[i].value;
      InsideUnfolds(value, types);
      if IsNamespaceMap(value) {
        NamespaceIsObject(value);
        assert remaining[i] in definitions;
        var inside := RemoveTypeDefinitions(value.entries, types);
        value := Obj(inside);
      }
      result := result + [Entry(remaining[i].key, value)];
    }
    RemoveIsUnmatched(definitions, types);
    assert result == InsideAll(remaining, types);
  }

  lemma RemoveNothing(types: set<string>)
    ensures Unmatched([], types) == []
  {
  }

  lemma InsideUnfolds(v: Json, types: set<string>)
    ensures IsNamespaceMap(v) ==> v.Obj? && RemoveInside(v, types) == Obj(RemoveTypes(v.entries, types))
    ensures !IsNamespaceMap(v) ==> RemoveInside(v, types) == v
  {
  }

  lemma NamespaceIsObject(v: Json)
    requires IsNamespaceMap(v)
    ensures v.Obj?
  {
  }

  /** The entries that survive, before looking inside. */
  function Unmatched(es: seq<Entry>, types: set<string>): seq<Entry> {
    if es == [] then [] else (if MatchesAny(es[0].key, types) then [] else [es[0]]) + Unmatched(es[1..], types)
  }

  lemma {:induction false} UnmatchedAppend(es: seq<Entry>, e: Entry, types: set<string>)
    ensures Unmatched(es + [e], types)
            == if MatchesAny(e.key, types) then Unmatched(es, types) else Unmatched(es, types) + [e]
  {
    hide MatchesAny;
    if es == [] {
      assert es + [e] == [e] && [e][1..] == [];
    } else {
      UnmatchedAppend(es[1..], e, types);
      assert (es + [e])[1..] == es[1..] + [e] && (es + [e])[0] == es[0];
    }
  }

  lemma {:induction false} UnmatchedMembers(es: seq<Entry>, types: set<string>)
    ensures forall e | e in Unmatched(es, types) :: e in es && !MatchesAny(e.key, types)
  {
    if es != [] {
      UnmatchedMembers(es[1..], types);
    }
  }

  function InsideAll(es: seq<Entry>, types: set<string>): (r: seq<Entry>)
    ensures |r| == |es| && forall i | 0 <= i < |es| :: r[i] == Entry(es[i].key, RemoveInside(es[i].value, types))
  {
    seq(|es|, i requires 0 <= i < |es| => Entry(es[i].key, RemoveInside(es[i].value, types)))
  }

  lemma {:induction false} RemoveIsUnmatched(es: seq<Entry>, types: set<string>)
    ensures RemoveTypes(es, types) == InsideAll(Unmatched(es, types), types)
  {
    hide MatchesAny, RemoveInside;
    if es != [] {
      RemoveIsUnmatched(es[1..], types);
      var kept := Unmatched(es, types);
      if !MatchesAny(es[0].key, types) {
        assert kept[1..] == Unmatched(es[1..], types);
        assert InsideAll(kept, types)
            == [Entry(es[0].key, RemoveInside(es[0].value, types))] + InsideAll(kept[1..], types);
      } else {
        assert kept == Unmatched(es[1..], types);
      }
    }
  }

  // ------------------------------------------------------------- completeness

  /** The name of one of the types, plain or behind a path. */
  ghost predicate IsNamed(name: string, types: set<string>) {
    exists t :: t in types && (name == t || exists path :: name == path + ("::" + t))
  }

  /** An object of objects none of whose keys is a keyword of schemas. */
  predicate IsNamespace(v: Json) {
    && v.Obj?
    && forall e | e in v.entries ::
         && (e.key != "" ==> e.key[0] != '$')
         && e.key !in ["type", "properties", "anyOf", "oneOf", "allOf"]
         && e.value.Obj?
  }

  /** No definition, at top level or in a namespace at any depth, has a removed
      type's name. */
  ghost predicate NoMatches(definitions: seq<Entry>, types: set<string>) {
    forall e | e in definitions :: !IsNamed(e.key, types) && NoMatchesInside(e.value, types)
  }

  ghost predicate NoMatchesInside(v: Json, types: set<string>) {
    IsNamespace(v) ==> NoMatches(v.entries, types)
  }

  lemma NamedIff(name: string, types: set<string>)
    ensures MatchesAny(name, types) <==> IsNamed(name, types)
  {
    if t :| t in types && MatchesType(name, t) && name != t {
      var suffix := "::" + t;
      assert name == name[..|name| - |suffix|] + suffix;
    }
    forall t, path | t in types && name == path + ("::" + t)
      ensures MatchesType(name, t)
    {
      assert name[|name| - |"::" + t|..] == "::" + t;
    }
  }

  lemma NamespaceIff(v: Json)
    ensures IsNamespaceMap(v) <==> IsNamespace(v)
  {
    forall key: string
      ensures HasPrefix(key, "$") <==> key != "" && key[0] == '$'
    {
      assert key != "" && key[0] == '$' ==> key[..1] == "$";
    }
  }

  /** The source's tests are those of the predicates above. */
  lemma TestsAgree()
    ensures forall name, types :: MatchesAny(name, types) <==> IsNamed(name, types)
    ensures forall v :: IsNamespaceMap(v) <==> IsNamespace(v)
  {
    hide MatchesAny, IsNamed, IsNamespaceMap, IsNamespace;
    forall name, types
      ensures MatchesAny(name, types) <==> IsNamed(name, types)
    {
      NamedIff(name, types);
    }
    forall v
      ensures IsNamespaceMap(v) <==> IsNamespace(v)
    {
      NamespaceIff(v);
    }
  }

  lemma {:induction false} RemovalIsComplete(definitions: seq<Entry>, types: set<string>)
    ensures NoMatches(RemoveTypes(definitions, types), types)
    decreases definitions
  {
    hide MatchesAny, RemoveTypes, IsNamespaceMap, IsNamed, IsNamespace;
    TestsAgree();
    RemoveIsUnmatched(definitions, types);
    UnmatchedMembers(definitions, types);
    var kept := Unmatched(definitions, types);
    var result := RemoveTypes(definitions, types);
    forall e | e in result
      ensures !IsNamed(e.key, types) && NoMatchesInside(e.value, types)
    {
      var i :| 0 <= i < |result| && result[i] == e;
      assert kept[i] in definitions;
      if IsNamespaceMap(kept[i].value) {
        NamespaceIsObject(kept[i].value);
        RemovalIsComplete(kept[i].value.entries, types);
      }
    }
  }

  /** Nothing else is removed or changed: removal is the identity exactly when
      no name matches. */
  lemma {:induction false} RemovalKeepsIff(definitions: seq<Entry>, types: set<string>)
    ensures RemoveTypes(definitions, types) == definitions <==> NoMatches(definitions, types)
    decreases definitions
  {
    hide MatchesAny, RemoveTypes, IsNamespaceMap, IsNamed, IsNamespace;
    TestsAgree();
    RemovalIsComplete(definitions, types);
    if NoMatches(definitions, types) {
      RemoveIsUnmatched(definitions, types);
      AllUnmatched(definitions, types);
      forall i | 0 <= i < |definitions|
        ensures RemoveInside(definitions[i].value, types) == definitions[i].value
      {
        assert definitions[i] in definitions;
        InsideUnfolds(definitions[i].value, types);
        if IsNamespaceMap(definitions[i].value) {
          NamespaceIsObject(definitions[i].value);
          assert NoMatchesInside(definitions[i].value, types);
          RemovalKeepsIff(definitions[i].value.entries, types);
        }
      }
      assert InsideAll(definitions, types) == definitions;
    }
  }

  lemma {:induction false} AllUnmatched(es: seq<Entry>, types: set<string>)
    requires forall e | e in es :: !MatchesAny(e.key, types)
    ensures Unmatched(es, types) == es
  {
    if es != [] {
      AllUnmatched(es[1..], types);
      assert es == [es[0]] + es[1..];
    }
  }

  lemma RemovalIsIdempotent(definitions: seq<Entry>, types: set<string>)
    ensures RemoveTypes(RemoveTypes(definitions, types), types) == RemoveTypes(definitions, types)
  {
    RemovalIsComplete(definitions, types);
    RemovalKeepsIff(RemoveTypes(definitions, types), types);
  }

  /** What a name in the result stands for: the definitions under unmatched
      names keep their order and their schemas. */
  lemma SurvivorsAreUnchanged(definitions: seq<Entry>, types: set<string>, e: Entry)
    requires e in definitions && !IsNamed(e.key, types)
    ensures exists f :: f in RemoveTypes(definitions, types) && f.key == e.key
                        && (!IsNamespace(e.value) ==> f == e)
  {
    hide MatchesAny, IsNamespaceMap, IsNamed, IsNamespace;
    TestsAgree();
    RemoveIsUnmatched(definitions, types);
    UnmatchedKeeps(definitions, types, e);
    var kept := Unmatched(definitions, types);
    var i :| 0 <= i < |kept| && kept[i] == e;
    InsideUnfolds(e.value, types);
    assert InsideAll(kept, types)[i] in InsideAll(kept, types);
  }

  lemma {:induction false} UnmatchedKeeps(es: seq<Entry>, types: set<string>, e: Entry)
    requires e in es && !MatchesAny(e.key, types)
    ensures e in Unmatched(es, types)
  {
    if es[0] != e {
      assert es == [es[0]] + es[1..];
      UnmatchedKeeps(es[1..], types, e);
    }
  }

  // ------------------------------------------------------- the whole filter

  /** Both removals on a bundle's definitions. */
  function FilterDefinitions(definitions: seq<Entry>, methods: set<string>, types: set<string>): seq<Entry> {
    RemoveTypes(PruneEntries(definitions, methods), types)
  }

  lemma {:induction false} RemovalKeepsVariantFreedom(definitions: seq<Entry>, methods: set<string>, types: set<string>)
    requires forall e | e in definitions :: NoVariants(e.value, methods)
    ensures forall e | e in RemoveTypes(definitions, types) :: NoVariants(e.value, methods)
    decreases definitions
  {
    hide MatchesAny, RemoveTypes, IsNamespaceMap;
    RemoveIsUnmatched(definitions, types);
    UnmatchedMembers(definitions, types);
    var kept := Unmatched(definitions, types);
    var result := RemoveTypes(definitions, types);
    forall e | e in result
      ensures NoVariants(e.value, methods)
    {
      var i :| 0 <= i < |result| && result[i] == e;
      assert kept[i] in definitions;
      InsideUnfolds(kept[i].value, types);
      if IsNamespaceMap(kept[i].value) {
        RemovalKeepsVariantFreedom(kept[i].value.entries, methods, types);
      }
    }
  }

  /** Removing the types afterwards does not bring a method variant back, so a
      filtered bundle whose `enum` arrays hold only scalars is free of both. */
  lemma FilteredBundleIsClean(definitions: seq<Entry>, methods: set<string>, types: set<string>)
    requires ScalarEnums(Obj(definitions))
    ensures var filtered := FilterDefinitions(definitions, methods, types);
            NoVariants(Obj(filtered), methods) && NoMatches(filtered, types)
  {
    PruningIsCompleteOnScalarEnums(Obj(definitions), methods);
    RemovalKeepsVariantFreedom(PruneEntries(definitions, methods), methods, types);
    RemovalIsComplete(PruneEntries(definitions, methods), types);
  }
}
