/** Annotating and rewriting references commute, so annotating the definitions
    a second time while bundling changes nothing
    (code-rs/app-server-protocol/src/export.rs). */
module BundleTitles {
  import opened Text
  import opened Json
  import opened TitleAnnotation
  import opened SchemaBundle

  // --------------------------------------- what annotating looks at is kept

  lemma StringKept(es: seq<Entry>, ns: string, key: string)
    requires key != "$ref"
    ensures StringAt(RewriteEntries(es, ns), key) == StringAt(es, key)
  {
    GetRewritten(es, ns, key);
  }

  lemma TitleKept(v: Json, ns: string)
    ensures TitleOf(Rewrite(v, ns)) == TitleOf(v)
  {
    if v.Obj? {
      StringKept(v.entries, ns, "title");
    }
  }

  lemma FirstEnumKept(es: seq<Entry>, ns: string)
    ensures FirstEnum(RewriteEntries(es, ns)) == FirstEnum(es)
  {
    GetRewritten(es, ns, "enum");
  }

  lemma LiteralKept(v: Json, ns: string)
    ensures StringLiteral(Rewrite(v, ns)) == StringLiteral(v)
  {
    if v.Obj? {
      StringKept(v.entries, ns, "const");
      FirstEnumKept(v.entries, ns);
      hide FirstEnum, StringAt;
    }
  }

  lemma LiteralAtKept(es: seq<Entry>, ns: string, key: string)
    requires key != "$ref"
    ensures LiteralAt(RewriteEntries(es, ns), key) == LiteralAt(es, key)
  {
    GetRewritten(es, ns, key);
    if Get(es, key).Some? {
      LiteralKept(Get(es, key).value, ns);
    }
    hide StringLiteral;
  }

  lemma PropertyNameKept(pascal: Pascal, base: string, es: seq<Entry>, ns: string)
    ensures PropertyName(pascal, base, RewriteEntries(es, ns)) == PropertyName(pascal, base, es)
  {
    hide LiteralAt;
    LiteralAtKept(es, ns, "method");
    LiteralAtKept(es, ns, "type");
  }

  lemma RequiredNameKept(pascal: Pascal, base: string, es: seq<Entry>, ns: string)
    ensures RequiredName(pascal, base, RewriteEntries(es, ns)) == RequiredName(pascal, base, es)
  {
    GetRewritten(es, ns, "required");
  }

  lemma NameKept(pascal: Pascal, base: string, v: Json, ns: string)
    ensures VariantName(pascal, base, Rewrite(v, ns)) == VariantName(pascal, base, v)
  {
    if v.Obj? {
      GetRewritten(v.entries, ns, "properties");
      RequiredNameKept(pascal, base, v.entries, ns);
      var properties := Get(v.entries, "properties");
      if properties.Some? && properties.value.Obj? {
        PropertyNameKept(pascal, base, properties.value.entries, ns);
      }
      hide PropertyName, RequiredName;
    }
  }

  lemma {:induction false} NewTitlesKept(
      pascal: Pascal, items: seq<Json>, base: Option<string>, seen: set<string>, ns: string)
    ensures NewTitles(pascal, RewriteItems(items, ns), base, seen) == NewTitles(pascal, items, base, seen)
  {
    hide VariantName, FreeName, Rewrite, TitleOf;
    if items != [] {
      var r := RewriteItems(items, ns);
      TitleKept(items[0], ns);
      if base.Some? {
        NameKept(pascal, base.value, items[0], ns);
      }
      assert r[1..] == RewriteItems(items[1..], ns);
      var name := NewName(pascal, base, items[0]);
      NewTitlesKept(pascal, items[1..], base,
                    if name.Some? then seen + {FreeName(name.value, seen)} else seen, ns);
    }
  }

  lemma TitlesKept(items: seq<Json>, ns: string)
    ensures Titles(RewriteItems(items, ns)) == Titles(items)
  {
    hide Rewrite, TitleOf;
    forall i | 0 <= i < |items|
      ensures TitleOf(RewriteItems(items, ns)[i]) == TitleOf(items[i])
    {
      TitleKept(items[i], ns);
    }
  }

  lemma DiscriminatorKept(pascal: Pascal, owner: Option<string>, key: string, prop: Json, ns: string)
    ensures DiscriminatorTitle(pascal, owner, key, RewriteChild(key, prop, ns))
            == DiscriminatorTitle(pascal, owner, key, prop)
  {
    if key in DISCRIMINATOR_KEYS {
      LiteralKept(prop, ns);
      if prop.Obj? {
        GetRewritten(prop.entries, ns, "title");
      }
    }
  }

  lemma RewriteCons(e: Entry, rest: seq<Entry>, ns: string)
    ensures RewriteEntries([e] + rest, ns)
            == [Entry(e.key, RewriteChild(e.key, e.value, ns))] + RewriteEntries(rest, ns)
  {
  }

  lemma {:induction false} InsertKept(es: seq<Entry>, title: string, ns: string)
    ensures RewriteEntries(Insert(es, "title", Str(title)), ns) == Insert(RewriteEntries(es, ns), "title", Str(title))
  {
    assert RewriteChild("title", Str(title), ns) == Str(title);
    hide RewriteChild;
    var inserted := Insert(es, "title", Str(title));
    if es != [] {
      RewriteCons(es[0], es[1..], ns);
      assert es == [es[0]] + es[1..];
      RewriteCons(inserted[0], inserted[1..], ns);
      assert inserted == [inserted[0]] + inserted[1..];
      assert RewriteEntries(es, ns)[1..] == RewriteEntries(es[1..], ns);
      if es[0].key != "title" {
        InsertKept(es[1..], title, ns);
        assert inserted[1..] == Insert(es[1..], "title", Str(title));
      } else {
        assert inserted[1..] == es[1..];
      }
    }
  }

  // -------------------------------------------------------------- commutation

  /** Annotating a rewritten schema is rewriting the annotated one. */
  lemma {:induction false} AnnotateCommutesWithRewrite(
      pascal: Pascal, v: Json, base: Option<string>, given: Option<string>, ns: string)
    ensures Annotate(pascal, Rewrite(v, ns), base, given) == Rewrite(Annotate(pascal, v, base, given), ns)
    decreases v, 1
  {
    match v
    case Arr(items) =>
      forall i | 0 <= i < |items|
        ensures Annotate(pascal, Rewrite(items[i], ns), base, None)
                == Rewrite(Annotate(pascal, items[i], base, None), ns)
      {
        AnnotateCommutesWithRewrite(pascal, items[i], base, None, ns);
      }
      assert AnnotateItems(pascal, RewriteItems(items, ns), base)
          == RewriteItems(AnnotateItems(pascal, items, base), ns);
    case Obj(es) =>
      var owner := if given.Some? then given else TitleOf(v);
      TitleKept(v, ns);
      forall i | 0 <= i < |es|
        ensures AnnotateAt(pascal, es[i].key, RewriteChild(es[i].key, es[i].value, ns), base, owner)
                == RewriteChild(es[i].key, AnnotateAt(pascal, es[i].key, es[i].value, base, owner), ns)
      {
        ChildCommutes(pascal, es[i].key, es[i].value, base, owner, ns);
      }
      hide AnnotateAt, RewriteChild;
      var once := AnnotateEntries(pascal, es, base, owner);
      assert AnnotateEntries(pascal, RewriteEntries(es, ns), base, owner) == RewriteEntries(once, ns);
      if given.Some? {
        InsertKept(once, given.value, ns);
      }
    case _ =>
  }

  lemma {:induction false} ChildCommutes(
      pascal: Pascal, key: string, v: Json, base: Option<string>, owner: Option<string>, ns: string)
    ensures AnnotateAt(pascal, key, RewriteChild(key, v, ns), base, owner)
            == RewriteChild(key, AnnotateAt(pascal, key, v, base, owner), ns)
    decreases v, 3
  {
    hide Annotate, AnnotateVariants, AnnotateNamed, AnnotateProperties, RewriteItems, RewriteEntries;
    if key == "oneOf" || key == "anyOf" {
      if v.Arr? {
        VariantsCommute(pascal, v, base, ns);
      }
    } else if key == "definitions" || key == "$defs" {
      if v.Obj? {
        NamedCommute(pascal, v, ns);
      }
    } else if key == "properties" {
      if v.Obj? {
        PropertiesCommute(pascal, v, base, owner, ns);
      }
    } else {
      OtherCommutes(pascal, key, v, base, None, ns);
    }
  }

  lemma {:induction false} OtherCommutes(
      pascal: Pascal, key: string, v: Json, base: Option<string>, given: Option<string>, ns: string)
    requires key == "$ref" ==> given.None?
    ensures Annotate(pascal, RewriteChild(key, v, ns), base, given)
            == RewriteChild(key, Annotate(pascal, v, base, given), ns)
    decreases v, 2
  {
    StringsStay(pascal, key, v, base, None, given);
    if v.Str? {
      StringsStay(pascal, key, RewriteChild(key, v, ns), base, None, given);
    } else {
      hide Annotate;
      AnnotateCommutesWithRewrite(pascal, v, base, given, ns);
    }
  }

  lemma {:induction false} VariantsCommute(pascal: Pascal, v: Json, base: Option<string>, ns: string)
    requires v.Arr?
    ensures AnnotateVariants(pascal, RewriteItems(v.items, ns), base)
            == RewriteItems(AnnotateVariants(pascal, v.items, base), ns)
    decreases v, 0
  {
    hide Annotate, Rewrite;
    NewTitlesKept(pascal, v.items, base, Titles(v.items), ns);
    TitlesKept(v.items, ns);
    var titles := NewTitles(pascal, v.items, base, Titles(v.items));
    forall i | 0 <= i < |v.items|
      ensures Annotate(pascal, Rewrite(v.items[i], ns), base, titles[i])
              == Rewrite(Annotate(pascal, v.items[i], base, titles[i]), ns)
    {
      AnnotateCommutesWithRewrite(pascal, v.items[i], base, titles[i], ns);
    }
  }

  lemma {:induction false} NamedCommute(pascal: Pascal, v: Json, ns: string)
    requires v.Obj?
    ensures AnnotateNamed(pascal, RewriteEntries(v.entries, ns)) == RewriteEntries(AnnotateNamed(pascal, v.entries), ns)
    decreases v, 0
  {
    hide Annotate, RewriteChild;
    forall i | 0 <= i < |v.entries|
      ensures var e := v.entries[i];
              Annotate(pascal, RewriteChild(e.key, e.value, ns), Some(e.key), None)
              == RewriteChild(e.key, Annotate(pascal, e.value, Some(e.key), None), ns)
    {
      var e := v.entries[i];
      OtherCommutes(pascal, e.key, e.value, Some(e.key), None, ns);
    }
  }

  lemma {:induction false} PropertiesCommute(
      pascal: Pascal, v: Json, base: Option<string>, owner: Option<string>, ns: string)
    requires v.Obj?
    ensures AnnotateProperties(pascal, RewriteEntries(v.entries, ns), base, owner)
            == RewriteEntries(AnnotateProperties(pascal, v.entries, base, owner), ns)
    decreases v, 0
  {
    hide Annotate, RewriteChild;
    forall i | 0 <= i < |v.entries|
      ensures var e := v.entries[i];
              var given := DiscriminatorTitle(pascal, owner, e.key, e.value);
              && DiscriminatorTitle(pascal, owner, e.key, RewriteChild(e.key, e.value, ns)) == given
              && Annotate(pascal, RewriteChild(e.key, e.value, ns), base, given)
                 == RewriteChild(e.key, Annotate(pascal, e.value, base, given), ns)
    {
      var e := v.entries[i];
      DiscriminatorKept(pascal, owner, e.key, e.value, ns);
      OtherCommutes(pascal, e.key, e.value, base, DiscriminatorTitle(pascal, owner, e.key, e.value), ns);
    }
  }

  // -------------------------------------------------- the pass while bundling

  /** The definitions of a schema that was annotated when it was generated are
      already annotated after their references were rewritten. */
  lemma BundlingAnnotatesNothingNew(
      pascal: Pascal, generated: Json, base: Option<string>, ns: string, d: Entry)
    requires d in DefinitionsOf(Rewrite(Annotate(pascal, generated, base, None), ns))
    ensures Annotate(pascal, d.value, Some(d.key), None) == d.value
  {
    hide Annotate, RewriteChild, Rewrite;
    var annotated := Annotate(pascal, generated, base, None);
    DefinitionsRewritten(annotated, ns);
    AnnotatedDefinitions(pascal, generated, base);
    var originals := DefinitionsOf(generated);
    var i :| 0 <= i < |originals| && RewriteEntries(AnnotateNamed(pascal, originals), ns)[i] == d;
    var e := originals[i];
    var once := Annotate(pascal, e.value, Some(e.key), None);
    AnnotatingTwice(pascal, e.value, Some(e.key), None);
    assert Settled(pascal, once, Some(e.key));
    OtherCommutes(pascal, e.key, once, Some(e.key), None, ns);
  }

  lemma AnnotatedDefinitions(pascal: Pascal, v: Json, base: Option<string>)
    ensures DefinitionsOf(Annotate(pascal, v, base, None)) == AnnotateNamed(pascal, DefinitionsOf(v))
  {
    if v.Obj? {
      ChildOfAnnotated(pascal, v, base, None, "definitions");
      hide Annotate;
    }
  }
}
