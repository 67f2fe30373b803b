/** What is left of a schema after the experimental methods and their types have
    been removed (code-rs/app-server-protocol/src/export.rs). */
module PruningResults {
  import opened Text
  import opened Json
  import opened MethodPruning
  import opened TypePruning

  // ------------------------------------------------------------------ methods

  ghost predicate IsMethodSchema(v: Json, schema: seq<Entry>) {
    && v.Obj?
    && exists properties ::
         Get(v.entries, "properties") == Some(Obj(properties)) && Get(properties, "method") == Some(Obj(schema))
  }

  /** The schema allows one method: the string under `const`, or the only one
      under `enum` when `const` is no string. */
  predicate AllowsOnly(schema: seq<Entry>, name: string) {
    var constant := Get(schema, "const");
    || constant == Some(Str(name))
    || ((constant.None? || !constant.value.Str?) && Get(schema, "enum") == Some(Arr([Str(name)])))
  }

  ghost predicate IsExperimental(v: Json, methods: set<string>) {
    exists schema, name :: IsMethodSchema(v, schema) && AllowsOnly(schema, name) && name in methods
  }

  /** `kept` is `items` without the experimental variants, in order. */
  ghost predicate AreKept(items: seq<Json>, kept: seq<Json>, methods: set<string>) {
    if items == [] then kept == []
    else if IsExperimental(items[0], methods) then AreKept(items[1..], kept, methods)
    else kept != [] && kept[0] == items[0] && AreKept(items[1..], kept[1..], methods)
  }

  /** `r` is `v` with the experimental variants taken out of every array. */
  ghost predicate IsPruned(v: Json, r: Json, methods: set<string>) {
    match v
    case Arr(items) =>
      && r.Arr?
      && exists kept ::
           && AreKept(items, kept, methods) && |r.items| == |kept|
           && forall i | 0 <= i < |kept| :: kept[i] in items && IsPruned(kept[i], r.items[i], methods)
    case Obj(es) =>
      && r.Obj? && |r.entries| == |es|
      && forall i | 0 <= i < |es| ::
           r.entries[i].key == es[i].key && IsPruned(es[i].value, r.entries[i].value, methods)
    case _ => r == v
  }

  lemma ExperimentalIff(v: Json, methods: set<string>)
    ensures IsVariant(v, methods) <==> IsExperimental(v, methods)
  {
    var found := MethodSchema(v);
    if found.Some? {
      assert IsMethodSchema(v, found.value);
      SchemaDecides(found.value, methods);
    }
    forall schema | IsMethodSchema(v, schema)
      ensures found == Some(schema)
    {
    }
  }

  lemma SchemaDecides(schema: seq<Entry>, methods: set<string>)
    ensures (if StringConst(schema).Some? then StringConst(schema).value in methods
             else
               var items := EnumItems(schema);
               items.Some? && |items.value| == 1 && IsStringIn(items.value[0], methods))
            <==> exists name :: AllowsOnly(schema, name) && name in methods
  {
    var items := EnumItems(schema);
    if StringConst(schema).Some? {
      assert AllowsOnly(schema, StringConst(schema).value);
    } else if items.Some? && |items.value| == 1 && items.value[0].Str? {
      assert items.value == [Str(items.value[0].s)];
      assert AllowsOnly(schema, items.value[0].s);
    }
  }

  lemma {:induction false} RetainedAreKept(items: seq<Json>, methods: set<string>)
    ensures AreKept(items, Retained(items, methods), methods)
  {
    hide IsVariant, IsExperimental;
    if items != [] {
      ExperimentalIff(items[0], methods);
      RetainedAreKept(items[1..], methods);
      assert IsVariant(items[0], methods) ==> Retained(items, methods) == Retained(items[1..], methods);
    }
  }

  /** Pruning takes out just the experimental variants. */
  lemma {:induction false} OnlyVariantsArePruned(v: Json, methods: set<string>)
    ensures IsPruned(v, Prune(v, methods), methods)
  {
    hide IsVariant, AreKept;
    if v.Arr? {
      var kept := Retained(v.items, methods);
      RetainedAreKept(v.items, methods);
      forall i | 0 <= i < |kept|
        ensures kept[i] in v.items && IsPruned(kept[i], Prune(kept[i], methods), methods)
      {
        assert kept[i] in v.items;
        OnlyVariantsArePruned(kept[i], methods);
      }
    } else if v.Obj? {
      forall i | 0 <= i < |v.entries|
        ensures IsPruned(v.entries[i].value, Prune(v.entries[i].value, methods), methods)
      {
        OnlyVariantsArePruned(v.entries[i].value, methods);
      }
    }
  }

  // -------------------------------------------------------------------- types

  /** `kept` is `es` without the entries under a removed name, in order. */
  ghost predicate AreLeft(es: seq<Entry>, kept: seq<Entry>, types: set<string>) {
    if es == [] then kept == []
    else if IsNamed(es[0].key, types) then AreLeft(es[1..], kept, types)
    else kept != [] && kept[0] == es[0] && AreLeft(es[1..], kept[1..], types)
  }

  /** `r` is `es` without the removed types, here and in namespaces; every other
      schema is untouched. */
  ghost predicate IsRid(es: seq<Entry>, r: seq<Entry>, types: set<string>)
    decreases es
  {
    exists kept: seq<Entry> ::
      && AreLeft(es, kept, types) && |r| == |kept|
      && forall i | 0 <= i < |kept| ::
           && kept[i] in es && r[i].key == kept[i].key
           && if IsNamespace(kept[i].value)
              then r[i].value.Obj? && IsRid(kept[i].value.entries, r[i].value.entries, types)
              else r[i].value == kept[i].value
  }

  lemma {:induction false} UnmatchedAreLeft(es: seq<Entry>, types: set<string>)
    ensures AreLeft(es, Unmatched(es, types), types)
  {
    hide MatchesAny, IsNamed;
    if es != [] {
      NamedIff(es[0].key, types);
      UnmatchedAreLeft(es[1..], types);
      assert MatchesAny(es[0].key, types) ==> Unmatched(es, types) == Unmatched(es[1..], types);
    }
  }

  /** Removal takes out just the definitions of the types. */
  lemma {:induction false} OnlyTypesAreRemoved(definitions: seq<Entry>, types: set<string>)
    ensures IsRid(definitions, RemoveTypes(definitions, types), types)
    decreases definitions
  {
    hide MatchesAny, RemoveTypes, IsNamespaceMap, IsNamespace, AreLeft, Unmatched;
    RemoveIsUnmatched(definitions, types);
    UnmatchedMembers(definitions, types);
    UnmatchedAreLeft(definitions, types);
    var kept := Unmatched(definitions, types);
    forall i | 0 <= i < |kept|
      ensures kept[i] in definitions
      ensures var inside := RemoveInside(kept[i].value, types);
              if IsNamespace(kept[i].value)
              then kept[i].value.Obj? && inside.Obj? && IsRid(kept[i].value.entries, inside.entries, types)
              else inside == kept[i].value
    {
      assert kept[i] in definitions;
      NamespaceIff(kept[i].value);
      InsideUnfolds(kept[i].value, types);
      if IsNamespaceMap(kept[i].value) {
        OnlyTypesAreRemoved(kept[i].value.entries, types);
      }
    }
  }
}
