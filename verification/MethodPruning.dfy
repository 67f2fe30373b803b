/** Removing experimental methods and their types from a generated schema
    (code-rs/app-server-protocol/src/export.rs). */
module MethodPruning {
  import opened Text
  import opened Json

  // ------------------------------------------------------- method variants

  function ObjectAt(es: seq<Entry>, key: string): Option<seq<Entry>> {
    var v := Get(es, key);
    if v.Some? && v.value.Obj? then Some(v.value.entries) else None
  }

  /** The schema of the `method` property. */
  function MethodSchema(v: Json): Option<seq<Entry>> {
    if !v.Obj? then None
    else
      var properties := ObjectAt(v.entries, "properties");
      if properties.None? then None else ObjectAt(properties.value, "method")
  }

  predicate IsStringIn(v: Json, methods: set<string>) {
    v.Str? && v.s in methods
  }

  function StringConst(schema: seq<Entry>): Option<string> {
    var c := Get(schema, "const");
    if c.Some? && c.value.Str? then Some(c.value.s) else None
  }

  function EnumItems(schema: seq<Entry>): Option<seq<Json>> {
    var e := Get(schema, "enum");
    if e.Some? && e.value.Arr? then Some(e.value.items) else None
  }

  /** `is_experimental_method_variant`. */
  predicate IsVariant(v: Json, methods: set<string>) {
    var schema := MethodSchema(v);
    schema.Some?
    && (if StringConst(schema.value).Some? then StringConst(schema.value).value in methods
        else
          var items := EnumItems(schema.value);
          items.Some? && |items.value| == 1 && IsStringIn(items.value[0], methods))
  }

  // ----------------------------------------------------------------- pruning

  /** `items.retain(..)`. */
  function Retained(items: seq<Json>, methods: set<string>): (r: seq<Json>)
    ensures |r| <= |items| && forall x | x in r :: x in items && !IsVariant(x, methods)
  {
    if items == [] then []
    else (if IsVariant(items[0], methods) then [] else [items[0]]) + Retained(items[1..], methods)
  }

  function Prune(v: Json, methods: set<string>): Json
    decreases v, 1
  {
    match v
    case Arr(items) => Arr(PruneItems(v, Retained(items, methods), methods))
    case Obj(es) => Obj(PruneEntries(es, methods))
    case _ => v
  }

  /** `items` are elements of the array `v`. */
  function PruneItems(v: Json, items: seq<Json>, methods: set<string>): (r: seq<Json>)
    requires v.Arr? && forall x | x in items :: x in v.items
    ensures |r| == |items| && forall i | 0 <= i < |items| :: items[i] in v.items && r[i] == Prune(items[i], methods)
    decreases v, 0
  {
    seq(|items|, i requires 0 <= i < |items| => assert items[i] in v.items; Prune(items[i], methods))
  }

  function PruneEntries(es: seq<Entry>, methods: set<string>): (r: seq<Entry>)
    ensures |r| == |es|
    ensures forall i | 0 <= i < |es| :: r[i] == Entry(es[i].key, Prune(es[i].value, methods))
    decreases es, 0
  {
    seq(|es|, i requires 0 <= i < |es| => Entry(es[i].key, Prune(es[i].value, methods)))
  }

  /** The loop of `retain`. */
  method RetainItems(items: seq<Json>, methods: set<string>) returns (retained: seq<Json>)
    ensures retained == Retained(items, methods)
  {
    hide IsVariant;
    retained := [];
    assert items[..0] == [] && items[..|items|] == items;
    for i := 0 to |items|
      invariant retained == Retained(items[..i], methods)
    {
      RetainOneMore(items[..i], items[i], methods);
      assert items[..i] + [items[i]] == items[..i + 1];
      if !IsVariant(items[i], methods) {
        retained := retained + [items[i]];
      }
    }
  }

  method PruneExperimentalMethods(value: Json, methods: set<string>) returns (pruned: Json)
    ensures pruned == Prune(value, methods)
    decreases value
  {
    hide IsVariant, Retained;
    match value {
      case Arr(items) =>
        var retained := RetainItems(items, methods);
        var result: seq<Json> := [];
        for i := 0 to |retained|
          invariant |result| == i && forall j | 0 <= j < i :: result[j] == Prune(retained[j], methods)
        {
          assert retained[i] in items;
          var item := PruneExperimentalMethods(retained[i], methods);
          result := result + [item];
        }
        assert result == PruneItems(value, retained, methods);
        pruned := Arr(result);
      case Obj(es) =>
        var entries: seq<Entry> := [];
        for i := 0 to |es|
          invariant |entries| == i
          invariant forall j | 0 <= j < i :: entries[j] == Entry(es[j].key, Prune(es[j].value, methods))
        {
          var child := PruneExperimentalMethods(es[i].value, methods);
          entries := entries + [Entry(es[i].key, child)];
        }
        assert entries == PruneEntries(es, methods);
        pruned := Obj(entries);
      case _ =>
        pruned := value;
    }
  }

  function Keep(item: Json, methods: set<string>): seq<Json> {
    if IsVariant(item, methods) then [] else [item]
  }

  lemma RetainedHead(head: Json, tail: seq<Json>, methods: set<string>)
    ensures Retained([head] + tail, methods) == Keep(head, methods) + Retained(tail, methods)
    ensures Retained([], methods) == []
  {
  }

  lemma {:induction false} RetainOneMore(items: seq<Json>, item: Json, methods: set<string>)
    ensures Retained(items + [item], methods) == Retained(items, methods) + Keep(item, methods)
  {
    hide IsVariant, Retained, Keep;
    if items == [] {
      RetainedHead(item, [], methods);
      assert items + [item] == [item] + [];
    } else {
      var head, tail := items[0], items[1..];
      RetainOneMore(tail, item, methods);
      RetainedHead(head, tail, methods);
      RetainedHead(head, tail + [item], methods);
      assert items == [head] + tail && items + [item] == [head] + (tail + [item]);
    }
  }

  // ------------------------------------------------------------ completeness

  /** No array at any depth holds an experimental variant. */
  ghost predicate NoVariants(v: Json, methods: set<string>) {
    match v
    case Arr(items) => forall x | x in items :: !IsVariant(x, methods) && NoVariants(x, methods)
    case Obj(es) => forall e | e in es :: NoVariants(e.value, methods)
    case _ => true
  }

  /** An item that is kept but turns into an experimental variant, because its
      `enum` holds variants beside one experimental name. */
  predicate IsHidden(v: Json, methods: set<string>) {
    !IsVariant(v, methods)
    && var schema := MethodSchema(v);
       schema.Some? && StringConst(schema.value).None?
       && var items := EnumItems(schema.value);
          items.Some?
          && var kept := Retained(items.value, methods);
             |kept| == 1 && IsStringIn(kept[0], methods)
  }

  /** No array item that pruning keeps is hidden. */
  ghost predicate NoHidden(v: Json, methods: set<string>) {
    match v
    case Arr(items) => forall x | x in items && !IsVariant(x, methods) :: !IsHidden(x, methods) && NoHidden(x, methods)
    case Obj(es) => forall e | e in es :: NoHidden(e.value, methods)
    case _ => true
  }

  lemma {:induction false} GetPruned(es: seq<Entry>, key: string, methods: set<string>)
    ensures Get(PruneEntries(es, methods), key) ==
            if Get(es, key).None? then None else Some(Prune(Get(es, key).value, methods))
  {
    if es != [] && es[0].key != key {
      GetPruned(es[1..], key, methods);
      assert PruneEntries(es, methods)[1..] == PruneEntries(es[1..], methods);
    }
  }

  lemma ObjectAtPruned(es: seq<Entry>, key: string, methods: set<string>)
    ensures ObjectAt(PruneEntries(es, methods), key) ==
            if ObjectAt(es, key).None? then None else Some(PruneEntries(ObjectAt(es, key).value, methods))
  {
    GetPruned(es, key, methods);
  }

  lemma MethodSchemaPruned(v: Json, methods: set<string>)
    ensures MethodSchema(Prune(v, methods)) ==
            if MethodSchema(v).None? then None else Some(PruneEntries(MethodSchema(v).value, methods))
  {
    if v.Obj? {
      ObjectAtPruned(v.entries, "properties", methods);
      assert Prune(v, methods) == Obj(PruneEntries(v.entries, methods));
      hide ObjectAt, PruneEntries, Prune;
      var properties := ObjectAt(v.entries, "properties");
      if properties.Some? {
        ObjectAtPruned(properties.value, "method", methods);
      }
    }
  }

  lemma MethodParts(schema: seq<Entry>, methods: set<string>)
    ensures var pruned := PruneEntries(schema, methods);
            && StringConst(pruned) == StringConst(schema)
            && (EnumItems(pruned).Some? <==> EnumItems(schema).Some?)
            && (EnumItems(schema).Some? ==>
                  var kept := Retained(EnumItems(schema).value, methods);
                  var items := EnumItems(pruned).value;
                  |items| == |kept| && forall i | 0 <= i < |kept| :: items[i] == Prune(kept[i], methods))
  {
    GetPruned(schema, "const", methods);
    GetPruned(schema, "enum", methods);
  }

  lemma RetainedOfOne(items: seq<Json>, methods: set<string>)
    requires |items| == 1 && items[0].Str?
    ensures Retained(items, methods) == items
  {
  }

  /** Pruning an item makes it a variant exactly when it was one or was hidden. */
  lemma VariantAfterPruning(v: Json, methods: set<string>)
    ensures IsVariant(Prune(v, methods), methods) <==> IsVariant(v, methods) || IsHidden(v, methods)
  {
    hide Prune, Retained;
    MethodSchemaPruned(v, methods);
    var schema := MethodSchema(v);
    if schema.Some? && StringConst(schema.value).None? && EnumItems(schema.value).Some? {
      MethodParts(schema.value, methods);
      var items := EnumItems(schema.value).value;
      var kept := Retained(items, methods);
      if |items| == 1 && items[0].Str? {
        RetainedOfOne(items, methods);
      }
      if |kept| == 1 {
        ScalarsStay(kept[0], methods);
      }
    } else if schema.Some? {
      MethodParts(schema.value, methods);
    }
  }

  lemma ScalarsStay(v: Json, methods: set<string>)
    ensures IsStringIn(Prune(v, methods), methods) <==> IsStringIn(v, methods)
  {
  }

  lemma {:induction false} RetainedMembers(items: seq<Json>, methods: set<string>)
    ensures forall x :: x in Retained(items, methods) <==> x in items && !IsVariant(x, methods)
  {
    if items != [] {
      RetainedMembers(items[1..], methods);
      assert items == [items[0]] + items[1..];
    }
  }

  /** Pruning is complete exactly when nothing is hidden. */
  lemma {:induction false} PruningIsCompleteIff(v: Json, methods: set<string>)
    ensures NoVariants(Prune(v, methods), methods) <==> NoHidden(v, methods)
  {
    hide IsVariant, IsHidden;
    if v.Arr? {
      var kept := Retained(v.items, methods);
      var pruned := PruneItems(v, kept, methods);
      RetainedMembers(v.items, methods);
      forall i | 0 <= i < |kept|
        ensures !IsVariant(pruned[i], methods) && NoVariants(pruned[i], methods)
                <==> !IsHidden(kept[i], methods) && NoHidden(kept[i], methods)
      {
        assert kept[i] in v.items;
        VariantAfterPruning(kept[i], methods);
        PruningIsCompleteIff(kept[i], methods);
      }
      if NoHidden(v, methods) {
        forall x | x in pruned
          ensures !IsVariant(x, methods) && NoVariants(x, methods)
        {
          var i :| 0 <= i < |pruned| && pruned[i] == x;
          assert kept[i] in kept;
        }
      }
      if NoVariants(Prune(v, methods), methods) {
        forall x | x in kept
          ensures !IsHidden(x, methods) && NoHidden(x, methods)
        {
          var i :| 0 <= i < |kept| && kept[i] == x;
          assert pruned[i] in pruned;
        }
      }
    } else if v.Obj? {
      var es, pruned := v.entries, PruneEntries(v.entries, methods);
      forall i | 0 <= i < |es|
        ensures NoVariants(pruned[i].value, methods) <==> NoHidden(es[i].value, methods)
      {
        PruningIsCompleteIff(es[i].value, methods);
      }
      assert forall i | 0 <= i < |es| :: es[i] in es && pruned[i] in pruned;
    }
  }

  /** Pruning changes nothing exactly when there is nothing to prune. */
  lemma {:induction false} PruningKeepsIff(v: Json, methods: set<string>)
    ensures Prune(v, methods) == v <==> NoVariants(v, methods)
  {
    hide IsVariant;
    if v.Arr? {
      var kept := Retained(v.items, methods);
      RetainedMembers(v.items, methods);
      forall x | x in v.items
        ensures Prune(x, methods) == x <==> NoVariants(x, methods)
      {
        PruningKeepsIff(x, methods);
      }
      if forall x | x in v.items :: !IsVariant(x, methods) {
        RetainAll(v.items, methods);
        assert forall i | 0 <= i < |v.items| :: v.items[i] in v.items;
      } else {
        RetainFewer(v.items, methods);
      }
    } else if v.Obj? {
      var es := v.entries;
      forall i | 0 <= i < |es|
        ensures Prune(es[i].value, methods) == es[i].value <==> NoVariants(es[i].value, methods)
      {
        PruningKeepsIff(es[i].value, methods);
      }
      assert forall i | 0 <= i < |es| :: es[i] in es;
    }
  }

  lemma {:induction false} RetainAll(items: seq<Json>, methods: set<string>)
    requires forall x | x in items :: !IsVariant(x, methods)
    ensures Retained(items, methods) == items
  {
    if items != [] {
      RetainAll(items[1..], methods);
      assert items == [items[0]] + items[1..];
    }
  }

  lemma {:induction false} RetainFewer(items: seq<Json>, methods: set<string>)
    requires exists x :: x in items && IsVariant(x, methods)
    ensures |Retained(items, methods)| < |items|
  {
    if !IsVariant(items[0], methods) {
      assert items == [items[0]] + items[1..];
      RetainFewer(items[1..], methods);
    }
  }

  /** Hence a second pass changes nothing exactly when nothing was hidden. */
  lemma PruningIsIdempotentIff(v: Json, methods: set<string>)
    ensures Prune(Prune(v, methods), methods) == Prune(v, methods) <==> NoHidden(v, methods)
  {
    PruningKeepsIff(Prune(v, methods), methods);
    PruningIsCompleteIff(v, methods);
  }

  // ------------------------------------------------------------ scalar enums

  predicate IsScalar(v: Json) {
    !v.Arr? && !v.Obj?
  }

  /** Every `enum` array holds only scalars. */
  ghost predicate ScalarEnums(v: Json) {
    match v
    case Arr(items) => forall x | x in items :: ScalarEnums(x)
    case Obj(es) =>
      forall e | e in es ::
        ScalarEnums(e.value) && (e.key == "enum" && e.value.Arr? ==> forall x | x in e.value.items :: IsScalar(x))
    case _ => true
  }

  /** In a schema whose `enum` arrays hold only scalars nothing is hidden. */
  lemma {:induction false} ScalarEnumsHideNothing(v: Json, methods: set<string>)
    requires ScalarEnums(v)
    ensures NoHidden(v, methods) && !IsHidden(v, methods)
  {
    NotHidden(v, methods);
    hide IsVariant, IsHidden;
    if v.Arr? {
      forall x | x in v.items
        ensures !IsHidden(x, methods) && NoHidden(x, methods)
      {
        ScalarEnumsHideNothing(x, methods);
      }
    } else if v.Obj? {
      forall e | e in v.entries
        ensures NoHidden(e.value, methods)
      {
        ScalarEnumsHideNothing(e.value, methods);
      }
    }
  }

  lemma NotHidden(v: Json, methods: set<string>)
    requires ScalarEnums(v)
    ensures !IsHidden(v, methods)
  {
    var schema := MethodSchema(v);
    if schema.Some? && StringConst(schema.value).None? && EnumItems(schema.value).Some? {
      var items := EnumItems(schema.value).value;
      var properties := ObjectAt(v.entries, "properties").value;
      assert Entry("properties", Obj(properties)) in v.entries;
      assert Entry("method", Obj(schema.value)) in properties;
      assert Entry("enum", Arr(items)) in schema.value;
      assert ScalarEnums(Obj(properties)) && ScalarEnums(Obj(schema.value));
      forall x | x in items
        ensures !IsVariant(x, methods)
      {
        assert IsScalar(x);
      }
      RetainAll(items, methods);
    }
  }

  /** So on such schemas one pass is complete and a second changes nothing. */
  lemma PruningIsCompleteOnScalarEnums(v: Json, methods: set<string>)
    requires ScalarEnums(v)
    ensures NoVariants(Prune(v, methods), methods)
    ensures Prune(Prune(v, methods), methods) == Prune(v, methods)
  {
    ScalarEnumsHideNothing(v, methods);
    PruningIsCompleteIff(v, methods);
    PruningIsIdempotentIff(v, methods);
  }

  function MethodItem(schema: seq<Entry>): Json {
    Obj([Entry("properties", Obj([Entry("method", Obj(schema))]))])
  }

  lemma SchemaOfItem(schema: seq<Entry>)
    ensures MethodSchema(MethodItem(schema)) == Some(schema)
  {
  }

  /** Without that restriction pruning can be incomplete: an `enum` with an
      experimental variant beside an experimental name makes a new variant. */
  lemma PruningCanCreateAVariant(name: string)
    ensures var methods := {name};
            var variant := MethodItem([Entry("const", Str(name))]);
            var item := MethodItem([Entry("enum", Arr([Str(name), variant]))]);
            && !IsVariant(item, methods) && IsVariant(Prune(item, methods), methods)
            && !NoVariants(Prune(Arr([item]), methods), methods)
  {
    var methods := {name};
    var variant := MethodItem([Entry("const", Str(name))]);
    var items := [Str(name), variant];
    var item := MethodItem([Entry("enum", Arr(items))]);
    SchemaOfItem([Entry("const", Str(name))]);
    SchemaOfItem([Entry("enum", Arr(items))]);
    assert IsVariant(variant, methods);
    assert items == [Str(name)] + [variant] && [variant] == [variant] + [];
    RetainedHead(Str(name), [variant], methods);
    RetainedHead(variant, [], methods);
    assert StringConst([Entry("enum", Arr(items))]) == None by {
      assert Get([Entry("enum", Arr(items))], "const") == None;
    }
    assert EnumItems([Entry("enum", Arr(items))]) == Some(items);
    assert Retained(items, methods) == [Str(name)];
    assert IsHidden(item, methods) && !IsVariant(item, methods);
    VariantAfterPruning(item, methods);
    PruningIsCompleteIff(Arr([item]), methods);
    assert item in [item];
  }
}
