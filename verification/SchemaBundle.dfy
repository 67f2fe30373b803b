/** Bundling namespaced schemas and rewriting their references
    (`build_schema_bundle` and `rewrite_refs_to_namespace` in
    code-rs/app-server-protocol/src/export.rs). */
module SchemaBundle {
  import opened Text
  import opened Json
  import opened TitleAnnotation

  const IGNORED_DEFINITIONS := {"Option<()>"}

  const SPECIAL_DEFINITIONS :=
    {"ClientNotification", "ClientRequest", "EventMsg", "ServerNotification", "ServerRequest"}

  const REF_PREFIX := "#/definitions/"

  // ---------------------------------------------------------------- rewriting

  function RewriteRef(r: string, ns: string): string {
    if !HasPrefix(r, REF_PREFIX) then r
    else
      var suffix := r[|REF_PREFIX|..];
      if HasPrefix(suffix, ns + "/") then r else REF_PREFIX + (ns + "/" + suffix)
  }

  /** `rewrite_refs_to_namespace`. */
  function Rewrite(v: Json, ns: string): Json
    decreases v, 1
  {
    match v
    case Arr(items) => Arr(RewriteItems(items, ns))
    case Obj(es) => Obj(RewriteEntries(es, ns))
    case _ => v
  }

  function RewriteChild(key: string, v: Json, ns: string): Json
    decreases v, 2
  {
    if key == "$ref" && v.Str? then Str(RewriteRef(v.s, ns)) else Rewrite(v, ns)
  }

  function RewriteItems(items: seq<Json>, ns: string): (r: seq<Json>)
    ensures |r| == |items| && forall i | 0 <= i < |items| :: r[i] == Rewrite(items[i], ns)
    decreases items
  {
    seq(|items|, i requires 0 <= i < |items| => Rewrite(items[i], ns))
  }

  function RewriteEntries(es: seq<Entry>, ns: string): (r: seq<Entry>)
    ensures |r| == |es|
    ensures forall i | 0 <= i < |es| :: r[i] == Entry(es[i].key, RewriteChild(es[i].key, es[i].value, ns))
    decreases es
  {
    seq(|es|, i requires 0 <= i < |es| => Entry(es[i].key, RewriteChild(es[i].key, es[i].value, ns)))
  }

  lemma RewriteRefTwice(r: string, ns: string)
    ensures RewriteRef(RewriteRef(r, ns), ns) == RewriteRef(r, ns)
  {
  }

  /** Rewriting is idempotent: bundled definitions are rewritten twice. */
  lemma {:induction false} RewriteTwice(v: Json, ns: string)
    ensures Rewrite(Rewrite(v, ns), ns) == Rewrite(v, ns)
  {
    hide RewriteRef;
    if v.Arr? {
      var r := RewriteItems(v.items, ns);
      forall i | 0 <= i < |r|
        ensures Rewrite(r[i], ns) == r[i]
      {
        RewriteTwice(v.items[i], ns);
      }
      assert RewriteItems(r, ns) == r;
    } else if v.Obj? {
      var r := RewriteEntries(v.entries, ns);
      forall i | 0 <= i < |r|
        ensures RewriteChild(r[i].key, r[i].value, ns) == r[i].value
      {
        var e := v.entries[i];
        if e.key == "$ref" && e.value.Str? {
          RewriteRefTwice(e.value.s, ns);
        } else {
          RewriteTwice(e.value, ns);
        }
      }
      assert RewriteEntries(r, ns) == r;
    }
  }

  // --------------------------------------------------------------- references

  /** Some object in `v` has `r` under `$ref`. */
  ghost predicate HasRef(v: Json, r: string) {
    match v
    case Arr(items) => exists x :: x in items && HasRef(x, r)
    case Obj(es) => exists e :: e in es && IsOrHasRef(e, r)
    case _ => false
  }

  ghost predicate IsOrHasRef(e: Entry, r: string) {
    (e.key == "$ref" && e.value == Str(r)) || HasRef(e.value, r)
  }

  lemma NoRefInString(s: string, r: string)
    ensures !HasRef(Str(s), r)
  {
  }

  /** The references of a rewritten schema. */
  lemma {:induction false} RefsRewritten(v: Json, ns: string, r: string) returns (original: string)
    requires HasRef(Rewrite(v, ns), r)
    ensures HasRef(v, original) && r == RewriteRef(original, ns)
  {
    hide RewriteRef;
    if v.Arr? {
      var items := RewriteItems(v.items, ns);
      var x :| x in items && HasRef(x, r);
      var i :| 0 <= i < |items| && items[i] == x;
      original := RefsRewritten(v.items[i], ns, r);
      assert v.items[i] in v.items;
    } else {
      var es := RewriteEntries(v.entries, ns);
      var e :| e in es && IsOrHasRef(e, r);
      var i :| 0 <= i < |es| && es[i] == e;
      var f := v.entries[i];
      if f.key == "$ref" && f.value.Str? {
        original := f.value.s;
        NoRefInString(RewriteRef(original, ns), r);
      } else {
        original := RefsRewritten(f.value, ns, r);
      }
      assert IsOrHasRef(f, original);
    }
  }

  lemma {:induction false} InsertedMembers(es: seq<Entry>, key: string, v: Json)
    ensures forall e | e in Insert(es, key, v) :: e == Entry(key, v) || e in es
  {
    if es != [] && es[0].key != key {
      InsertedMembers(es[1..], key, v);
    }
  }

  /** Annotating brings no reference in. */
  lemma {:induction false} RefsAnnotated(
      pascal: Pascal, v: Json, base: Option<string>, given: Option<string>, r: string)
    requires HasRef(Annotate(pascal, v, base, given), r)
    ensures HasRef(v, r)
    decreases v, 2
  {
    if v.Arr? {
      var items := AnnotateItems(pascal, v.items, base);
      var x :| x in items && HasRef(x, r);
      var i :| 0 <= i < |items| && items[i] == x;
      RefsAnnotated(pascal, v.items[i], base, None, r);
      assert v.items[i] in v.items;
    } else {
      hide AnnotateAt;
      var owner := if given.Some? then given else TitleOf(v);
      var es := AnnotateEntries(pascal, v.entries, base, owner);
      if given.Some? {
        InsertedMembers(es, "title", Str(given.value));
        NoRefInString(given.value, r);
      }
      var e :| e in WithTitle(es, given) && IsOrHasRef(e, r);
      var i :| 0 <= i < |es| && es[i] == e;
      var f := v.entries[i];
      if e.value != Str(r) || e.key != "$ref" {
        ChildRefsAnnotated(pascal, f.key, f.value, base, owner, r);
      } else {
        StringsStay(pascal, f.key, f.value, base, owner, None);
      }
      assert IsOrHasRef(f, r);
    }
  }

  lemma {:induction false} ChildRefsAnnotated(
      pascal: Pascal, key: string, v: Json, base: Option<string>, owner: Option<string>, r: string)
    requires HasRef(AnnotateAt(pascal, key, v, base, owner), r)
    ensures HasRef(v, r)
    decreases v, 3
  {
    hide Annotate;
    if key == "oneOf" || key == "anyOf" {
      if v.Arr? {
        var items := AnnotateVariants(pascal, v.items, base);
        var titles := NewTitles(pascal, v.items, base, Titles(v.items));
        var x :| x in items && HasRef(x, r);
        var i :| 0 <= i < |items| && items[i] == x;
        RefsAnnotated(pascal, v.items[i], base, titles[i], r);
        assert v.items[i] in v.items;
      }
    } else if key == "definitions" || key == "$defs" {
      if v.Obj? {
        NamedRefs(pascal, v, r);
      }
    } else if key == "properties" {
      if v.Obj? {
        PropertyRefs(pascal, v, base, owner, r);
      }
    } else {
      RefsAnnotated(pascal, v, base, None, r);
    }
  }

  lemma {:induction false} NamedRefs(pascal: Pascal, v: Json, r: string)
    requires v.Obj? && HasRef(Obj(AnnotateNamed(pascal, v.entries)), r)
    ensures HasRef(v, r)
    decreases v, 1
  {
    hide Annotate;
    var es := AnnotateNamed(pascal, v.entries);
    var e :| e in es && IsOrHasRef(e, r);
    var i :| 0 <= i < |es| && es[i] == e;
    EntryRefs(pascal, v, i, e, Some(e.key), None, r);
  }

  lemma {:induction false} PropertyRefs(
      pascal: Pascal, v: Json, base: Option<string>, owner: Option<string>, r: string)
    requires v.Obj? && HasRef(Obj(AnnotateProperties(pascal, v.entries, base, owner)), r)
    ensures HasRef(v, r)
    decreases v, 1
  {
    hide Annotate, DiscriminatorTitle;
    var es := AnnotateProperties(pascal, v.entries, base, owner);
    var e :| e in es && IsOrHasRef(e, r);
    var i :| 0 <= i < |es| && es[i] == e;
    var f := v.entries[i];
    EntryRefs(pascal, v, i, e, base, DiscriminatorTitle(pascal, owner, f.key, f.value), r);
  }

  lemma {:induction false} EntryRefs(
      pascal: Pascal, v: Json, i: nat, e: Entry, base: Option<string>, given: Option<string>, r: string)
    requires v.Obj? && i < |v.entries| && IsOrHasRef(e, r)
    requires e == Entry(v.entries[i].key, Annotate(pascal, v.entries[i].value, base, given))
    ensures HasRef(v, r)
    decreases v, 0
  {
    hide Annotate;
    var f := v.entries[i];
    if HasRef(e.value, r) {
      RefsAnnotated(pascal, f.value, base, given, r);
    } else {
      StringsStay(pascal, f.key, f.value, base, None, given);
    }
    assert IsOrHasRef(f, r);
  }

  // ------------------------------------------------------------------ bundling

  /** A generated schema with a namespace. */
  datatype Schema = Schema(ns: string, name: string, value: Json)

  /** The `definitions` of the bundle: schemas by name, by namespace. */
  type Bundle = map<string, map<string, Json>>

  ghost predicate Has(b: Bundle, ns: string, name: string) {
    ns in b && name in b[ns]
  }

  /** `insert_into_namespace`. */
  function InsertInto(b: Bundle, ns: string, name: string, v: Json): Bundle {
    b[ns := (if ns in b then b[ns] else map[])[name := v]]
  }

  function DefinitionsOf(v: Json): seq<Entry> {
    if !v.Obj? then []
    else
      var d := Get(v.entries, "definitions");
      if d.Some? && d.value.Obj? then d.value.entries else []
  }

  function WithoutKey(es: seq<Entry>, key: string): (r: seq<Entry>)
    ensures forall e | e in r :: e in es && e.key != key
  {
    if es == [] then [] else (if es[0].key == key then [] else [es[0]]) + WithoutKey(es[1..], key)
  }

  function WithoutDefinitions(v: Json): Json {
    if v.Obj? then Obj(WithoutKey(v.entries, "definitions")) else v
  }

  predicate IsBundled(name: string) {
    name !in IGNORED_DEFINITIONS && name !in SPECIAL_DEFINITIONS
  }

  function AddDefinition(pascal: Pascal, b: Bundle, ns: string, d: Entry): Bundle {
    if !IsBundled(d.key) then b
    else InsertInto(b, ns, d.key, Rewrite(Annotate(pascal, d.value, Some(d.key), None), ns))
  }

  function AddDefinitions(pascal: Pascal, b: Bundle, ns: string, defs: seq<Entry>): Bundle {
    if defs == [] then b
    else AddDefinition(pascal, AddDefinitions(pascal, b, ns, defs[..|defs| - 1]), ns, defs[|defs| - 1])
  }

  function AddSchema(pascal: Pascal, b: Bundle, s: Schema): Bundle {
    if s.name in IGNORED_DEFINITIONS then b
    else
      var v := Rewrite(s.value, s.ns);
      InsertInto(AddDefinitions(pascal, b, s.ns, DefinitionsOf(v)), s.ns, s.name, WithoutDefinitions(v))
  }

  function BundleOf(pascal: Pascal, schemas: seq<Schema>): Bundle {
    if schemas == [] then map[]
    else AddSchema(pascal, BundleOf(pascal, schemas[..|schemas| - 1]), schemas[|schemas| - 1])
  }

  method BuildSchemaBundle(pascal: Pascal, schemas: seq<Schema>) returns (definitions: Bundle)
    ensures definitions == BundleOf(pascal, schemas)
  {
    hide Annotate, Rewrite, DefinitionsOf, WithoutDefinitions, InsertInto;
    definitions := map[];
    for i := 0 to |schemas|
      invariant definitions == BundleOf(pascal, schemas[..i])
    {
      assert schemas[..i + 1][..i] == schemas[..i];
      var s := schemas[i];
      if s.name in IGNORED_DEFINITIONS {
        continue;
      }
      var value := Rewrite(s.value, s.ns);
      var defs := DefinitionsOf(value);
      value := WithoutDefinitions(value);
      ghost var before := definitions;
      for j := 0 to |defs|
        invariant definitions == AddDefinitions(pascal, before, s.ns, defs[..j])
      {
        assert defs[..j + 1][..j] == defs[..j];
        var name := defs[j].key;
        if name in IGNORED_DEFINITIONS {
          continue;
        }
        if name in SPECIAL_DEFINITIONS {
          continue;
        }
        var def := Annotate(pascal, defs[j].value, Some(name), None);
        def := Rewrite(def, s.ns);
        definitions := InsertInto(definitions, s.ns, name, def);
      }
      assert defs[..|defs|] == defs;
      definitions := InsertInto(definitions, s.ns, s.name, value);
    }
    assert schemas[..|schemas|] == schemas;
  }

  // ------------------------------------------------------- what the bundle holds

  ghost predicate Provides(s: Schema, name: string) {
    && s.name !in IGNORED_DEFINITIONS
    && (name == s.name || (IsBundled(name) && exists e :: e in DefinitionsOf(s.value) && e.key == name))
  }

  ghost predicate Provided(schemas: seq<Schema>, ns: string, name: string) {
    exists s :: s in schemas && s.ns == ns && Provides(s, name)
  }

  lemma {:induction false} GetRewritten(es: seq<Entry>, ns: string, key: string)
    ensures Get(RewriteEntries(es, ns), key) ==
            if Get(es, key).None? then None else Some(RewriteChild(key, Get(es, key).value, ns))
  {
    hide RewriteChild;
    if es != [] && es[0].key != key {
      GetRewritten(es[1..], ns, key);
      assert RewriteEntries(es, ns)[1..] == RewriteEntries(es[1..], ns);
    }
  }

  lemma DefinitionsRewritten(v: Json, ns: string)
    ensures DefinitionsOf(Rewrite(v, ns)) == RewriteEntries(DefinitionsOf(v), ns)
  {
    if v.Obj? {
      GetRewritten(v.entries, ns, "definitions");
    }
  }

  lemma {:induction false} KeysOfDefinitions(
      pascal: Pascal, b: Bundle, ns: string, defs: seq<Entry>, m: string, name: string)
    ensures Has(AddDefinitions(pascal, b, ns, defs), m, name) <==>
            Has(b, m, name) || (m == ns && IsBundled(name) && exists e :: e in defs && e.key == name)
  {
    hide Annotate, Rewrite;
    if defs != [] {
      var init, last := defs[..|defs| - 1], defs[|defs| - 1];
      KeysOfDefinitions(pascal, b, ns, init, m, name);
      assert defs == init + [last];
    }
  }

  lemma SameDefinitionNames(s: Schema, name: string)
    ensures (exists e :: e in DefinitionsOf(Rewrite(s.value, s.ns)) && e.key == name)
            <==> exists e :: e in DefinitionsOf(s.value) && e.key == name
  {
    DefinitionsRewritten(s.value, s.ns);
    var defs := DefinitionsOf(s.value);
    var rewritten := RewriteEntries(defs, s.ns);
    if e :| e in rewritten && e.key == name {
      var i :| 0 <= i < |rewritten| && rewritten[i] == e;
      assert defs[i] in defs;
    }
    if e :| e in defs && e.key == name {
      var i :| 0 <= i < |defs| && defs[i] == e;
      assert rewritten[i] in rewritten;
    }
  }

  /** The bundle holds exactly the schemas' own names and the definitions that
      are neither ignored nor special, each in its schema's namespace. */
  lemma {:induction false} BundleKeys(pascal: Pascal, schemas: seq<Schema>, ns: string, name: string)
    ensures Has(BundleOf(pascal, schemas), ns, name) <==> Provided(schemas, ns, name)
  {
    hide Annotate, Rewrite, DefinitionsOf, WithoutDefinitions, IsBundled;
    if schemas != [] {
      var init, last := schemas[..|schemas| - 1], schemas[|schemas| - 1];
      BundleKeys(pascal, init, ns, name);
      assert schemas == init + [last];
      KeysOfDefinitions(pascal, BundleOf(pascal, init), last.ns, DefinitionsOf(Rewrite(last.value, last.ns)), ns, name);
      SameDefinitionNames(last, name);
      assert Has(BundleOf(pascal, schemas), ns, name) <==>
             Has(BundleOf(pascal, init), ns, name) || (last.ns == ns && Provides(last, name));
    }
  }

  // ---------------------------------------------------------- reference closure

  /** `r` is a reference of a schema of namespace `ns`, rewritten. */
  ghost predicate ComesFrom(schemas: seq<Schema>, ns: string, r: string) {
    exists s, original ::
      s in schemas && s.ns == ns && s.name !in IGNORED_DEFINITIONS
      && HasRef(s.value, original) && r == RewriteRef(original, ns)
  }

  ghost predicate RefsComeFrom(b: Bundle, schemas: seq<Schema>) {
    forall ns, name, r | Has(b, ns, name) && HasRef(b[ns][name], r) :: ComesFrom(schemas, ns, r)
  }

  lemma InsertKeepsRefs(b: Bundle, ns: string, name: string, v: Json, schemas: seq<Schema>)
    requires RefsComeFrom(b, schemas) && forall r | HasRef(v, r) :: ComesFrom(schemas, ns, r)
    ensures RefsComeFrom(InsertInto(b, ns, name, v), schemas)
  {
  }

  lemma DefinitionRefs(s: Schema, d: Entry, r: string)
    requires d in DefinitionsOf(Rewrite(s.value, s.ns)) && HasRef(d.value, r)
    ensures HasRef(Rewrite(s.value, s.ns), r)
  {
    var v := Rewrite(s.value, s.ns);
    var defs := Entry("definitions", Obj(DefinitionsOf(v)));
    assert IsOrHasRef(d, r);
    assert HasRef(defs.value, r);
    assert defs in v.entries && IsOrHasRef(defs, r);
  }

  lemma DefinitionRefsComeFrom(pascal: Pascal, s: Schema, d: Entry, r: string, schemas: seq<Schema>)
    requires s in schemas && s.name !in IGNORED_DEFINITIONS && d in DefinitionsOf(Rewrite(s.value, s.ns))
    requires HasRef(Rewrite(Annotate(pascal, d.value, Some(d.key), None), s.ns), r)
    ensures ComesFrom(schemas, s.ns, r)
  {
    hide Annotate, Rewrite, HasRef, DefinitionsOf, RewriteRef;
    var once := RefsRewritten(Annotate(pascal, d.value, Some(d.key), None), s.ns, r);
    RefsAnnotated(pascal, d.value, Some(d.key), None, once);
    DefinitionRefs(s, d, once);
    var original := RefsRewritten(s.value, s.ns, once);
    RewriteRefTwice(original, s.ns);
  }

  lemma {:induction false} DefinitionsKeepRefs(
      pascal: Pascal, b: Bundle, s: Schema, defs: seq<Entry>, schemas: seq<Schema>)
    requires RefsComeFrom(b, schemas) && s in schemas && s.name !in IGNORED_DEFINITIONS
    requires forall d | d in defs :: d in DefinitionsOf(Rewrite(s.value, s.ns))
    ensures RefsComeFrom(AddDefinitions(pascal, b, s.ns, defs), schemas)
  {
    hide Annotate, Rewrite, HasRef, DefinitionsOf, RefsComeFrom, ComesFrom, InsertInto;
    if defs != [] {
      var init, d := defs[..|defs| - 1], defs[|defs| - 1];
      DefinitionsKeepRefs(pascal, b, s, init, schemas);
      if IsBundled(d.key) {
        var v := Rewrite(Annotate(pascal, d.value, Some(d.key), None), s.ns);
        forall r | HasRef(v, r)
          ensures ComesFrom(schemas, s.ns, r)
        {
          DefinitionRefsComeFrom(pascal, s, d, r, schemas);
        }
        InsertKeepsRefs(AddDefinitions(pascal, b, s.ns, init), s.ns, d.key, v, schemas);
      }
    }
  }

  lemma RootRefs(v: Json, r: string)
    requires HasRef(WithoutDefinitions(v), r)
    ensures HasRef(v, r)
  {
  }

  lemma SchemaKeepsRefs(pascal: Pascal, b: Bundle, s: Schema, schemas: seq<Schema>)
    requires RefsComeFrom(b, schemas) && s in schemas
    ensures RefsComeFrom(AddSchema(pascal, b, s), schemas)
  {
    hide Annotate, Rewrite, HasRef, DefinitionsOf, RefsComeFrom, InsertInto, WithoutDefinitions, RewriteRef;
    if s.name !in IGNORED_DEFINITIONS {
      var v := Rewrite(s.value, s.ns);
      var defs := DefinitionsOf(v);
      DefinitionsKeepRefs(pascal, b, s, defs, schemas);
      forall r | HasRef(WithoutDefinitions(v), r)
        ensures ComesFrom(schemas, s.ns, r)
      {
        RootRefs(v, r);
        var original := RefsRewritten(s.value, s.ns, r);
      }
      InsertKeepsRefs(AddDefinitions(pascal, b, s.ns, defs), s.ns, s.name, WithoutDefinitions(v), schemas);
    }
  }

  lemma {:induction false} BundleRefs(pascal: Pascal, schemas: seq<Schema>, n: nat)
    requires n <= |schemas|
    ensures RefsComeFrom(BundleOf(pascal, schemas[..n]), schemas)
  {
    hide AddSchema, HasRef;
    if n > 0 {
      BundleRefs(pascal, schemas, n - 1);
      assert schemas[..n][..n - 1] == schemas[..n - 1];
      SchemaKeepsRefs(pascal, BundleOf(pascal, schemas[..n - 1]), schemas[n - 1], schemas);
    } else {
      assert schemas[..0] == [];
    }
  }

  predicate IsLocal(r: string) {
    HasPrefix(r, REF_PREFIX)
  }

  /** The key a JSON pointer token stands for (section 4 of RFC 6901); none for
      a stray `~`. */
  function TokenKey(token: string): (key: Option<string>)
    ensures '~' !in token ==> key == Some(token)
    decreases |token|
  {
    if token == "" then Some("")
    else if token[0] == '~' then
      if |token| == 1 || token[1] !in {'0', '1'} then None
      else
        var rest := TokenKey(token[2..]);
        if rest.None? then None else Some([if token[1] == '0' then '~' else '/'] + rest.value)
    else
      var rest := TokenKey(token[1..]);
      assert token == [token[0]] + token[1..];
      if rest.None? then None else Some([token[0]] + rest.value)
  }

  /** One pointer token without percent escapes. */
  predicate IsToken(token: string) {
    '/' !in token && '%' !in token && TokenKey(token).Some?
  }

  /** The pointer leads to a schema of the bundle. */
  ghost predicate Resolves(b: Bundle, r: string) {
    exists first, second :: IsPointer(r, first, second) && Has(b, TokenKey(first).value, TokenKey(second).value)
  }

  predicate IsPointer(r: string, first: string, second: string) {
    IsToken(first) && IsToken(second) && r == REF_PREFIX + (first + "/" + second)
  }

  /** A namespace is written into pointers as it stands. */
  predicate IsPlain(ns: string) {
    '/' !in ns && '%' !in ns && '~' !in ns
  }

  /** Every local reference of a bundled schema names something its namespace
      provides. */
  ghost predicate NamesArePresent(schemas: seq<Schema>) {
    forall s, r | s in schemas && s.name !in IGNORED_DEFINITIONS && HasRef(s.value, r) && IsLocal(r) ::
      var token := r[|REF_PREFIX|..];
      IsPlain(s.ns) && IsToken(token) && Provided(schemas, s.ns, TokenKey(token).value)
  }

  lemma SlashInPrefix(name: string, ns: string)
    requires HasPrefix(name, ns + "/")
    ensures '/' in name
  {
    assert (ns + "/")[|ns|] == '/' == name[|ns|];
  }

  lemma RewrittenRefResolves(pascal: Pascal, schemas: seq<Schema>, s: Schema, original: string)
    requires NamesArePresent(schemas) && s in schemas && s.name !in IGNORED_DEFINITIONS && HasRef(s.value, original)
    requires IsLocal(RewriteRef(original, s.ns))
    ensures Resolves(BundleOf(pascal, schemas), RewriteRef(original, s.ns))
  {
    hide BundleOf, HasRef, TokenKey;
    assert IsLocal(original);
    var token := original[|REF_PREFIX|..];
    if HasPrefix(token, s.ns + "/") {
      SlashInPrefix(token, s.ns);
    }
    BundleKeys(pascal, schemas, s.ns, TokenKey(token).value);
    assert IsPointer(RewriteRef(original, s.ns), s.ns, token);
  }

  /** Every local reference anywhere in the bundle resolves in the bundle. */
  lemma EveryReferenceResolves(pascal: Pascal, schemas: seq<Schema>, ns: string, name: string, r: string)
    requires NamesArePresent(schemas)
    requires Has(BundleOf(pascal, schemas), ns, name)
    requires HasRef(BundleOf(pascal, schemas)[ns][name], r) && IsLocal(r)
    ensures Resolves(BundleOf(pascal, schemas), r)
  {
    BundleRefs(pascal, schemas, |schemas|);
    assert schemas[..|schemas|] == schemas;
    hide BundleOf, HasRef, NamesArePresent, Resolves, RewriteRef;
    var s, original :| s in schemas && s.ns == ns && s.name !in IGNORED_DEFINITIONS
      && HasRef(s.value, original) && r == RewriteRef(original, ns);
    RewrittenRefResolves(pascal, schemas, s, original);
  }

  /** Every local reference of the schema names one of its own definitions that
      is neither ignored nor special. */
  ghost predicate IsSelfContained(s: Schema) {
    forall r | HasRef(s.value, r) && IsLocal(r) ::
      var token := r[|REF_PREFIX|..];
      IsToken(token) && exists d :: d in DefinitionsOf(s.value) && IsBundled(d.key) && TokenKey(token) == Some(d.key)
  }

  /** A schema's reference to one of its own definitions is covered. */
  lemma OwnDefinitionsArePresent(schemas: seq<Schema>, s: Schema, d: Entry)
    requires s in schemas && s.name !in IGNORED_DEFINITIONS && d in DefinitionsOf(s.value) && IsBundled(d.key)
    ensures Provided(schemas, s.ns, d.key)
  {
    assert Provides(s, d.key);
  }

  /** Bundling schemas that only refer to their own definitions breaks no
      reference. */
  lemma SelfContainedSchemasResolve(pascal: Pascal, schemas: seq<Schema>, ns: string, name: string, r: string)
    requires forall s | s in schemas :: IsPlain(s.ns) && IsSelfContained(s)
    requires Has(BundleOf(pascal, schemas), ns, name)
    requires HasRef(BundleOf(pascal, schemas)[ns][name], r) && IsLocal(r)
    ensures Resolves(BundleOf(pascal, schemas), r)
  {
    hide BundleOf, HasRef, DefinitionsOf, Provided, TokenKey, Resolves;
    forall s, q | s in schemas && s.name !in IGNORED_DEFINITIONS && HasRef(s.value, q) && IsLocal(q)
      ensures IsToken(q[|REF_PREFIX|..]) && Provided(schemas, s.ns, TokenKey(q[|REF_PREFIX|..]).value)
    {
      assert IsSelfContained(s);
      var d :| d in DefinitionsOf(s.value) && IsBundled(d.key) && TokenKey(q[|REF_PREFIX|..]) == Some(d.key);
      OwnDefinitionsArePresent(schemas, s, d);
    }
    EveryReferenceResolves(pascal, schemas, ns, name, r);
  }
}
