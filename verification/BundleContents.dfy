/** What the bundle holds, told from the generated schemas
    (`build_schema_bundle` in code-rs/app-server-protocol/src/export.rs). */
module BundleContents {
  import opened Text
  import opened Json
  import opened TitleAnnotation
  import opened TitlePlaces
  import opened SchemaBundle
  import opened BundleTitles

  // --------------------------------------------------------------- references

  /** A reference to a definition, with the namespace in front unless it is there. */
  ghost predicate IsQualified(original: string, r: string, ns: string) {
    if exists rest :: original == "#/definitions/" + rest && !(ns + "/" <= rest) then
      exists rest :: original == "#/definitions/" + rest && r == "#/definitions/" + ns + "/" + rest
    else r == original
  }

  /** `r` is `v` with every reference qualified. */
  ghost predicate IsRewritten(v: Json, r: Json, ns: string) {
    match v
    case Arr(items) =>
      r.Arr? && |r.items| == |items| && forall i | 0 <= i < |items| :: IsRewritten(items[i], r.items[i], ns)
    case Obj(es) =>
      && r.Obj? && |r.entries| == |es|
      && forall i | 0 <= i < |es| ::
           && r.entries[i].key == es[i].key
           && if es[i].key == "$ref" && es[i].value.Str?
              then r.entries[i].value.Str? && IsQualified(es[i].value.s, r.entries[i].value.s, ns)
              else IsRewritten(es[i].value, r.entries[i].value, ns)
    case _ => r == v
  }

  lemma RefQualified(original: string, ns: string)
    ensures IsQualified(original, RewriteRef(original, ns), ns)
  {
    if HasPrefix(original, REF_PREFIX) {
      var suffix := original[|REF_PREFIX|..];
      assert original == "#/definitions/" + suffix;
      assert forall rest | original == "#/definitions/" + rest :: rest == suffix by {
        forall rest | original == "#/definitions/" + rest
          ensures rest == suffix
        {
          assert original[|"#/definitions/"|..] == rest;
        }
      }
      assert REF_PREFIX + (ns + "/" + suffix) == "#/definitions/" + ns + "/" + suffix;
    }
  }

  lemma {:induction false} EveryRefRewritten(v: Json, ns: string)
    ensures IsRewritten(v, Rewrite(v, ns), ns)
  {
    hide RewriteRef, IsQualified;
    if v.Arr? {
      forall i | 0 <= i < |v.items|
        ensures IsRewritten(v.items[i], Rewrite(v.items[i], ns), ns)
      {
        EveryRefRewritten(v.items[i], ns);
      }
    } else if v.Obj? {
      forall i | 0 <= i < |v.entries|
        ensures IsRewritten(v.entries[i].value, Rewrite(v.entries[i].value, ns), ns)
      {
        EveryRefRewritten(v.entries[i].value, ns);
      }
      forall i | 0 <= i < |v.entries| && v.entries[i].value.Str?
        ensures IsQualified(v.entries[i].value.s, RewriteRef(v.entries[i].value.s, ns), ns)
      {
        RefQualified(v.entries[i].value.s, ns);
      }
    }
  }

  // ------------------------------------------------------------------ contents

  function OwnDefinitions(v: Json): seq<Entry> {
    var defs := Member(Some(v), "definitions");
    if defs.Some? && defs.value.Obj? then defs.value.entries else []
  }

  /** A schema gives the bundle itself and its definitions, without unit options
      and without the unions that are schemas of their own. */
  ghost predicate Gives(s: Schema, name: string) {
    && s.name != "Option<()>"
    && (name == s.name ||
        (&& name !in ["Option<()>", "ClientNotification", "ClientRequest", "EventMsg", "ServerNotification",
                      "ServerRequest"]
         && exists d :: d in OwnDefinitions(s.value) && d.key == name))
  }

  ghost predicate IsLastGiver(schemas: seq<Schema>, i: nat, ns: string, name: string) {
    && i < |schemas| && schemas[i].ns == ns && Gives(schemas[i], name)
    && forall j | i < j < |schemas| :: !(schemas[j].ns == ns && Gives(schemas[j], name))
  }

  /** `r` is `es` without its entry under `key`; the keys of an object differ. */
  ghost predicate IsWithout(es: seq<Entry>, r: seq<Entry>, key: string) {
    && ((forall e | e in es :: e.key != key) ==> r == es)
    && (forall i | 0 <= i < |es| && IsOnly(es, i, key) :: r == es[..i] + es[i + 1..])
  }

  predicate IsOnly(es: seq<Entry>, i: nat, key: string)
    requires i < |es|
  {
    es[i].key == key && (forall e | e in es[..i] :: e.key != key) && (forall e | e in es[i + 1..] :: e.key != key)
  }

  /** A schema in the bundle is its rewritten self without its definitions. */
  ghost predicate IsRoot(v: Json, r: Json, ns: string) {
    exists w ::
      && IsRewritten(v, w, ns)
      && if w.Obj? then r.Obj? && IsWithout(w.entries, r.entries, "definitions") else r == w
  }

  /** A definition in the bundle is rewritten and has its titles. */
  ghost predicate IsDefinition(pascal: Pascal, s: Schema, name: string, r: Json) {
    exists defs: seq<Entry>, i: nat ::
      && IsRewritten(Obj(OwnDefinitions(s.value)), Obj(defs), s.ns)
      && IsLastNamed(defs, i, name) && IsAnnotated(pascal, defs[i].value, Some(name), r)
  }

  predicate IsLastNamed(defs: seq<Entry>, i: nat, name: string) {
    i < |defs| && defs[i].key == name && forall j | i < j < |defs| :: defs[j].key != name
  }

  ghost predicate IsEntry(pascal: Pascal, s: Schema, name: string, r: Json) {
    if name == s.name then IsRoot(s.value, r, s.ns) else IsDefinition(pascal, s, name, r)
  }

  lemma {:induction false} NothingTakenOut(es: seq<Entry>, key: string)
    requires forall e | e in es :: e.key != key
    ensures WithoutKey(es, key) == es
  {
    if es != [] {
      NothingTakenOut(es[1..], key);
    }
  }

  lemma {:induction false} OneTakenOut(es: seq<Entry>, i: nat, key: string)
    requires i < |es| && IsOnly(es, i, key)
    ensures WithoutKey(es, key) == es[..i] + es[i + 1..]
  {
    if i == 0 {
      NothingTakenOut(es[1..], key);
    } else {
      var rest := es[1..];
      assert es[..i] == [es[0]] + rest[..i - 1] && rest[i..] == es[i + 1..];
      OneTakenOut(rest, i - 1, key);
    }
  }

  lemma RootIsRoot(s: Schema)
    ensures IsRoot(s.value, WithoutDefinitions(Rewrite(s.value, s.ns)), s.ns)
  {
    hide IsRewritten, Rewrite, IsOnly, WithoutKey;
    var w := Rewrite(s.value, s.ns);
    EveryRefRewritten(s.value, s.ns);
    if w.Obj? {
      var es := w.entries;
      if forall e | e in es :: e.key != "definitions" {
        NothingTakenOut(es, "definitions");
      }
      forall i | 0 <= i < |es| && IsOnly(es, i, "definitions")
        ensures WithoutKey(es, "definitions") == es[..i] + es[i + 1..]
      {
        OneTakenOut(es, i, "definitions");
      }
    }
  }

  /** Rewriting an annotated definition again changes nothing. */
  lemma RewrittenOnce(pascal: Pascal, e: Entry, ns: string)
    ensures var a := Annotate(pascal, RewriteChild(e.key, e.value, ns), Some(e.key), None);
            Rewrite(a, ns) == a
  {
    hide Annotate, Rewrite;
    if e.key == "$ref" && e.value.Str? {
      StringUntouched(pascal, RewriteRef(e.value.s, ns), e.key, ns);
    } else {
      AnnotateCommutesWithRewrite(pascal, e.value, Some(e.key), None, ns);
      RewriteTwice(Annotate(pascal, e.value, Some(e.key), None), ns);
    }
  }

  lemma StringUntouched(pascal: Pascal, s: string, name: string, ns: string)
    ensures Annotate(pascal, Str(s), Some(name), None) == Str(s) == Rewrite(Str(s), ns)
  {
  }

  lemma {:induction false} LastDefinitionWins(
      pascal: Pascal, b: Bundle, ns: string, defs: seq<Entry>, m: string, name: string) returns (i: nat)
    ensures var after := AddDefinitions(pascal, b, ns, defs);
            if m == ns && IsBundled(name) && exists d :: d in defs && d.key == name then
              && IsLastNamed(defs, i, name) && Has(after, m, name)
              && after[m][name] == Rewrite(Annotate(pascal, defs[i].value, Some(name), None), ns)
            else (Has(after, m, name) <==> Has(b, m, name)) && (Has(b, m, name) ==> after[m][name] == b[m][name])
  {
    hide Annotate, Rewrite, IsBundled;
    i := 0;
    if defs != [] {
      var init, last := defs[..|defs| - 1], defs[|defs| - 1];
      i := LastDefinitionWins(pascal, b, ns, init, m, name);
      assert defs == init + [last];
      if last.key == name {
        i := |defs| - 1;
      }
    }
  }

  lemma GivesIffProvides(s: Schema, name: string)
    ensures Gives(s, name) <==> Provides(s, name)
    ensures OwnDefinitions(s.value) == DefinitionsOf(s.value)
  {
  }

  lemma DefinitionIsDefinition(pascal: Pascal, s: Schema, name: string, i: nat)
    requires IsLastNamed(DefinitionsOf(Rewrite(s.value, s.ns)), i, name)
    ensures IsDefinition(pascal, s, name,
              Rewrite(Annotate(pascal, DefinitionsOf(Rewrite(s.value, s.ns))[i].value, Some(name), None), s.ns))
  {
    var own := OwnDefinitions(s.value);
    GivesIffProvides(s, name);
    assert Rewrite(Obj(own), s.ns) == Obj(RewriteEntries(own, s.ns));
    hide Annotate, Rewrite, IsRewritten, IsAnnotated, DefinitionsOf, OwnDefinitions, RewriteChild;
    var defs := RewriteEntries(own, s.ns);
    DefinitionsRewritten(s.value, s.ns);
    EveryRefRewritten(Obj(own), s.ns);
    RewrittenOnce(pascal, own[i], s.ns);
    AnnotatedEverywhere(pascal, defs[i].value, Some(name));
  }

  lemma SchemaAdded(pascal: Pascal, b: Bundle, s: Schema, m: string, name: string)
    ensures var after := AddSchema(pascal, b, s);
            if s.ns == m && Gives(s, name) then Has(after, m, name) && IsEntry(pascal, s, name, after[m][name])
            else (Has(after, m, name) <==> Has(b, m, name)) && (Has(b, m, name) ==> after[m][name] == b[m][name])
  {
    hide Annotate, Rewrite, DefinitionsOf, WithoutDefinitions, IsRoot, IsDefinition, IsBundled;
    GivesIffProvides(s, name);
    if s.name !in IGNORED_DEFINITIONS {
      var defs := DefinitionsOf(Rewrite(s.value, s.ns));
      var i := LastDefinitionWins(pascal, b, s.ns, defs, m, name);
      SameDefinitionNames(s, name);
      RootIsRoot(s);
      if m == s.ns && IsBundled(name) && exists d :: d in defs && d.key == name {
        DefinitionIsDefinition(pascal, s, name, i);
      }
    }
  }

  // ------------------------------------------------------------------- theorem

  /** Each entry of the bundle is what the last schema that gives its name has
      under it: references qualified, no definitions inside, titles given. */
  lemma {:induction false} EveryEntryIsItsSchemas(pascal: Pascal, schemas: seq<Schema>, ns: string, name: string)
      returns (i: nat)
    requires Has(BundleOf(pascal, schemas), ns, name)
    ensures IsLastGiver(schemas, i, ns, name)
    ensures IsEntry(pascal, schemas[i], name, BundleOf(pascal, schemas)[ns][name])
  {
    hide Gives, IsEntry, AddSchema;
    var init, last := schemas[..|schemas| - 1], schemas[|schemas| - 1];
    SchemaAdded(pascal, BundleOf(pascal, init), last, ns, name);
    if last.ns == ns && Gives(last, name) {
      i := |schemas| - 1;
    } else {
      i := EveryEntryIsItsSchemas(pascal, init, ns, name);
    }
  }
}
