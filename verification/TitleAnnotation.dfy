/** Giving titles to the variants of a schema's unions
    (the `annotate_*` functions of code-rs/app-server-protocol/src/export.rs).

    The source inserts a title into a subschema and then annotates it;
    `Annotate` takes that title as the argument `given` instead, and
    `GivenIsInserted` shows that both are the same. */
module TitleAnnotation {
  import opened Text
  import opened Json

  /** `to_pascal_case`, of which nothing is assumed. */
  type Pascal = string -> string

  // ----------------------------------------------------------------- literals

  function StringAt(es: seq<Entry>, key: string): Option<string> {
    var v := Get(es, key);
    if v.Some? && v.value.Str? then Some(v.value.s) else None
  }

  function TitleOf(v: Json): Option<string> {
    if v.Obj? then StringAt(v.entries, "title") else None
  }

  function FirstEnum(es: seq<Entry>): Option<string> {
    var e := Get(es, "enum");
    if e.Some? && e.value.Arr? && e.value.items != [] && e.value.items[0].Str? then Some(e.value.items[0].s) else None
  }

  /** `string_literal`. */
  function StringLiteral(v: Json): Option<string> {
    if !v.Obj? then None
    else
      var c := StringAt(v.entries, "const");
      if c.Some? then c else FirstEnum(v.entries)
  }

  function LiteralAt(es: seq<Entry>, key: string): Option<string> {
    var v := Get(es, key);
    if v.Some? then StringLiteral(v.value) else None
  }

  // ------------------------------------------------------------ variant names

  function MethodSuffix(base: string): string {
    if base == "ClientRequest" || base == "ServerRequest" then "Request"
    else if base == "ClientNotification" || base == "ServerNotification" then "Notification"
    else base
  }

  function RequiredName(pascal: Pascal, base: string, es: seq<Entry>): Option<string> {
    var required := Get(es, "required");
    if required.Some? && required.value.Arr? && |required.value.items| == 1 && required.value.items[0].Str?
    then Some(pascal(required.value.items[0].s) + base)
    else None
  }

  /** `variant_definition_name`. */
  function VariantName(pascal: Pascal, base: string, variant: Json): Option<string> {
    if !variant.Obj? then None
    else
      var properties := Get(variant.entries, "properties");
      var name :=
        if properties.Some? && properties.value.Obj?
        then PropertyName(pascal, base, properties.value.entries) else None;
      if name.Some? then name else RequiredName(pascal, base, variant.entries)
  }

  function PropertyName(pascal: Pascal, base: string, props: seq<Entry>): Option<string> {
    if LiteralAt(props, "method").Some? then Some(pascal(LiteralAt(props, "method").value) + MethodSuffix(base))
    else if LiteralAt(props, "type").Some? then Some(pascal(LiteralAt(props, "type").value) + base)
    else if |props| == 1 then Some(pascal(props[0].key) + base)
    else None
  }

  // --------------------------------------------------------------- candidates

  /** The `k`-th candidate: the name itself, then with 2, 3, ... behind it. */
  function Candidate(name: string, k: nat): string {
    if k < 2 then name else name + Decimal(k)
  }

  lemma CandidatesDiffer(name: string, j: nat, k: nat)
    requires 1 <= j < k
    ensures Candidate(name, j) != Candidate(name, k)
  {
    assert |Candidate(name, k)| > |name|;
    if j > 1 && Candidate(name, j) == Candidate(name, k) {
      assert Decimal(j) == Candidate(name, j)[|name|..] && Decimal(k) == Candidate(name, k)[|name|..];
      DecimalInjective(j, k);
    }
  }

  /** The first free candidate from the `k`-th on.  `left` holds the seen names
      that later candidates can still hit; each hit uses one up. */
  function FirstFree(name: string, k: nat, seen: set<string>, ghost left: set<string>): (free: string)
    requires k >= 1 && forall j | j >= k :: Candidate(name, j) in seen ==> Candidate(name, j) in left
    ensures free !in seen && exists j :: j >= k && free == Candidate(name, j)
    decreases |left|
  {
    var c := Candidate(name, k);
    if c !in seen then c
    else
      assert forall j | j > k :: Candidate(name, j) != c by {
        forall j | j > k
          ensures Candidate(name, j) != c
        {
          CandidatesDiffer(name, k, j);
        }
      }
      FirstFree(name, k + 1, seen, left - {c})
  }

  function FreeName(name: string, seen: set<string>): (free: string)
    ensures free !in seen
  {
    FirstFree(name, 1, seen, seen)
  }

  /** The candidate loop. */
  method FindFreeName(name: string, seen: set<string>) returns (candidate: string)
    ensures candidate == FreeName(name, seen)
  {
    candidate := name;
    var index := 2;
    ghost var left := seen;
    while candidate in seen
      invariant index >= 2 && candidate == Candidate(name, index - 1)
      invariant forall j | j >= index - 1 :: Candidate(name, j) in seen ==> Candidate(name, j) in left
      invariant FreeName(name, seen) == FirstFree(name, index - 1, seen, left)
      decreases |left|
    {
      forall j | j > index - 1
        ensures Candidate(name, j) != candidate
      {
        CandidatesDiffer(name, index - 1, j);
      }
      left := left - {candidate};
      candidate := name + Decimal(index);
      index := index + 1;
    }
  }

  // -------------------------------------------------------------- annotation

  const DISCRIMINATOR_KEYS := {"type", "method", "mode", "status", "role", "reason"}

  /** The title `set_discriminator_titles` gives a property, if any. */
  function DiscriminatorTitle(pascal: Pascal, owner: Option<string>, key: string, prop: Json): Option<string> {
    if owner.Some? && key in DISCRIMINATOR_KEYS && StringLiteral(prop).Some? && Get(prop.entries, "title").None?
    then Some(owner.value + pascal(key))
    else None
  }

  /** `map.insert(key, v)`. */
  function Insert(es: seq<Entry>, key: string, v: Json): seq<Entry> {
    if es == [] then [Entry(key, v)]
    else if es[0].key == key then [Entry(key, v)] + es[1..]
    else [es[0]] + Insert(es[1..], key, v)
  }

  function WithTitle(es: seq<Entry>, given: Option<string>): seq<Entry> {
    if given.Some? then Insert(es, "title", Str(given.value)) else es
  }

  /** Annotates `v` after `title` was set to `given`, if that is a title. */
  function Annotate(pascal: Pascal, v: Json, base: Option<string>, given: Option<string>): Json
    decreases v, 2
  {
    match v
    case Arr(items) => Arr(AnnotateItems(pascal, items, base))
    case Obj(es) =>
      Obj(WithTitle(AnnotateEntries(pascal, es, base, if given.Some? then given else TitleOf(v)), given))
    case _ => v
  }

  function AnnotateItems(pascal: Pascal, items: seq<Json>, base: Option<string>): (r: seq<Json>)
    ensures |r| == |items|
    ensures forall i | 0 <= i < |items| :: r[i] == Annotate(pascal, items[i], base, None)
    decreases items
  {
    seq(|items|, i requires 0 <= i < |items| => Annotate(pascal, items[i], base, None))
  }

  function AnnotateEntries(pascal: Pascal, es: seq<Entry>, base: Option<string>, owner: Option<string>): (r: seq<Entry>)
    ensures |r| == |es|
    ensures forall i | 0 <= i < |es| ::
              r[i] == Entry(es[i].key, AnnotateAt(pascal, es[i].key, es[i].value, base, owner))
    decreases es
  {
    seq(|es|, i requires 0 <= i < |es| =>
      Entry(es[i].key, AnnotateAt(pascal, es[i].key, es[i].value, base, owner)))
  }

  /** The child of an object under `key`; `owner` is the object's title. */
  function AnnotateAt(pascal: Pascal, key: string, v: Json, base: Option<string>, owner: Option<string>): Json
    decreases v, 3
  {
    if key == "oneOf" || key == "anyOf" then
      if v.Arr? then Arr(AnnotateVariants(pascal, v.items, base)) else v
    else if key == "definitions" || key == "$defs" then
      if v.Obj? then Obj(AnnotateNamed(pascal, v.entries)) else v
    else if key == "properties" then
      if v.Obj? then Obj(AnnotateProperties(pascal, v.entries, base, owner)) else v
    else Annotate(pascal, v, base, None)
  }

  function AnnotateNamed(pascal: Pascal, es: seq<Entry>): (r: seq<Entry>)
    ensures |r| == |es|
    ensures forall i | 0 <= i < |es| :: r[i] == Entry(es[i].key, Annotate(pascal, es[i].value, Some(es[i].key), None))
    decreases es
  {
    seq(|es|, i requires 0 <= i < |es| => Entry(es[i].key, Annotate(pascal, es[i].value, Some(es[i].key), None)))
  }

  function AnnotateProperties(pascal: Pascal, es: seq<Entry>, base: Option<string>, owner: Option<string>)
    : (r: seq<Entry>)
    ensures |r| == |es|
    ensures forall i | 0 <= i < |es| ::
              r[i] == Entry(es[i].key,
                            Annotate(pascal, es[i].value, base,
                                     DiscriminatorTitle(pascal, owner, es[i].key, es[i].value)))
    decreases es
  {
    seq(|es|, i requires 0 <= i < |es| =>
      Entry(es[i].key,
            Annotate(pascal, es[i].value, base, DiscriminatorTitle(pascal, owner, es[i].key, es[i].value))))
  }

  /** The titles a list of variants has already. */
  function Titles(items: seq<Json>): set<string> {
    set i | 0 <= i < |items| && TitleOf(items[i]).Some? :: TitleOf(items[i]).value
  }

  /** The name to derive a title from, for a variant without one. */
  function NewName(pascal: Pascal, base: Option<string>, variant: Json): Option<string> {
    if TitleOf(variant).Some? || base.None? then None else VariantName(pascal, base.value, variant)
  }

  function NewTitles(pascal: Pascal, items: seq<Json>, base: Option<string>, seen: set<string>)
    : (r: seq<Option<string>>)
    ensures |r| == |items|
  {
    if items == [] then []
    else
      var name := NewName(pascal, base, items[0]);
      if name.None? then [None] + NewTitles(pascal, items[1..], base, seen)
      else
        var title := FreeName(name.value, seen);
        [Some(title)] + NewTitles(pascal, items[1..], base, seen + {title})
  }

  /** `annotate_variant_list`. */
  function AnnotateVariants(pascal: Pascal, items: seq<Json>, base: Option<string>): (r: seq<Json>)
    ensures |r| == |items|
    ensures var titles := NewTitles(pascal, items, base, Titles(items));
            forall i | 0 <= i < |items| :: r[i] == Annotate(pascal, items[i], base, titles[i])
    decreases items
  {
    var titles := NewTitles(pascal, items, base, Titles(items));
    seq(|items|, i requires 0 <= i < |items| => Annotate(pascal, items[i], base, titles[i]))
  }

  method AnnotateVariantList(pascal: Pascal, variants: seq<Json>, base: Option<string>) returns (annotated: seq<Json>)
    ensures annotated == AnnotateVariants(pascal, variants, base)
  {
    hide Annotate, VariantName, FreeName;
    var seen: set<string> := {};
    for i := 0 to |variants|
      invariant seen == Titles(variants[..i])
    {
      var title := TitleOf(variants[i]);
      TitlesAppend(variants[..i], variants[i]);
      assert variants[..i + 1] == variants[..i] + [variants[i]];
      if title.Some? {
        seen := seen + {title.value};
      }
    }
    assert variants[..|variants|] == variants && variants[0..] == variants;
    annotated := [];
    ghost var titles := NewTitles(pascal, variants, base, seen);
    for i := 0 to |variants|
      invariant |annotated| == i
      invariant titles[i..] == NewTitles(pascal, variants[i..], base, seen)
      invariant forall j | 0 <= j < i :: annotated[j] == Annotate(pascal, variants[j], base, titles[j])
    {
      var variant := variants[i];
      NextTitle(pascal, variant, variants[i + 1..], base, seen);
      assert variants[i..] == [variant] + variants[i + 1..];
      assert titles[i] == titles[i..][0] && titles[i + 1..] == titles[i..][1..];
      var title: Option<string> := None;
      if TitleOf(variant).None? && base.Some? {
        var name := VariantName(pascal, base.value, variant);
        if name.Some? {
          var candidate := FindFreeName(name.value, seen);
          title := Some(candidate);
          seen := seen + {candidate};
        }
      }
      annotated := annotated + [Annotate(pascal, variant, base, title)];
    }
  }

  lemma TitlesAppend(items: seq<Json>, item: Json)
    ensures Titles(items + [item]) == Titles(items) + if TitleOf(item).Some? then {TitleOf(item).value} else {}
  {
    var all := items + [item];
    forall t | t in Titles(items) || TitleOf(item) == Some(t)
      ensures t in Titles(all)
    {
      if t in Titles(items) {
        var i :| 0 <= i < |items| && TitleOf(items[i]).Some? && TitleOf(items[i]).value == t;
        assert all[i] == items[i];
      } else {
        assert all[|items|] == item;
      }
    }
  }

  lemma NextTitle(pascal: Pascal, variant: Json, rest: seq<Json>, base: Option<string>, seen: set<string>)
    ensures var titles := NewTitles(pascal, [variant] + rest, base, seen);
            var name := NewName(pascal, base, variant);
            && titles[0] == (if name.Some? then Some(FreeName(name.value, seen)) else None)
            && titles[1..] ==
               NewTitles(pascal, rest, base, if name.Some? then seen + {FreeName(name.value, seen)} else seen)
  {
    assert ([variant] + rest)[1..] == rest;
  }

  // ------------------------------------------------------------- fresh titles

  /** New titles avoid the seen names and each other. */
  lemma {:induction false} NewTitlesAvoid(pascal: Pascal, items: seq<Json>, base: Option<string>, seen: set<string>)
    ensures var titles := NewTitles(pascal, items, base, seen);
            && (forall i | 0 <= i < |items| && titles[i].Some? ::
                  titles[i].value !in seen && NewName(pascal, base, items[i]).Some?)
            && (forall i, j | 0 <= i < j < |items| && titles[i].Some? :: titles[i] != titles[j])
            && (forall i | 0 <= i < |items| && titles[i].None? :: NewName(pascal, base, items[i]).None?)
  {
    hide VariantName, FreeName;
    if items != [] {
      var name := NewName(pascal, base, items[0]);
      NewTitlesAvoid(pascal, items[1..], base,
                     if name.Some? then seen + {FreeName(name.value, seen)} else seen);
    }
  }

  lemma {:induction false} GetInserted(es: seq<Entry>, key: string, v: Json, k: string)
    ensures Get(Insert(es, key, v), k) == if k == key then Some(v) else Get(es, k)
  {
    if es != [] && es[0].key != key {
      GetInserted(es[1..], key, v, k);
      assert Insert(es, key, v)[1..] == Insert(es[1..], key, v);
    } else if es != [] {
      assert Insert(es, key, v)[1..] == es[1..];
    } else {
      assert Insert(es, key, v)[1..] == [];
    }
  }

  lemma {:induction false} GetAnnotated(
      pascal: Pascal, es: seq<Entry>, base: Option<string>, owner: Option<string>, key: string)
    ensures Get(AnnotateEntries(pascal, es, base, owner), key) ==
            if Get(es, key).None? then None
            else Some(AnnotateAt(pascal, key, Get(es, key).value, base, owner))
  {
    hide AnnotateAt;
    if es != [] && es[0].key != key {
      GetAnnotated(pascal, es[1..], base, owner, key);
      assert AnnotateEntries(pascal, es, base, owner)[1..] == AnnotateEntries(pascal, es[1..], base, owner);
    }
  }

  /** Annotating does not turn a string into something else, or make one. */
  lemma StringsStay(
      pascal: Pascal, key: string, v: Json, base: Option<string>, owner: Option<string>, given: Option<string>)
    ensures Annotate(pascal, v, base, given).Str? <==> v.Str?
    ensures AnnotateAt(pascal, key, v, base, owner).Str? <==> v.Str?
    ensures v.Str? ==> Annotate(pascal, v, base, given) == v && AnnotateAt(pascal, key, v, base, owner) == v
  {
  }

  /** What an annotated object holds under `key`. */
  lemma ChildOfAnnotated(
      pascal: Pascal, v: Json, base: Option<string>, given: Option<string>, key: string)
    requires v.Obj?
    ensures var r := Annotate(pascal, v, base, given);
            && r.Obj?
            && Get(r.entries, key) ==
               (if key == "title" && given.Some? then Some(Str(given.value))
                else if Get(v.entries, key).None? then None
                else Some(AnnotateAt(pascal, key, Get(v.entries, key).value, base,
                                     if given.Some? then given else TitleOf(v))))
  {
    hide AnnotateAt;
    var owner := if given.Some? then given else TitleOf(v);
    GetAnnotated(pascal, v.entries, base, owner, key);
    if given.Some? {
      GetInserted(AnnotateEntries(pascal, v.entries, base, owner), "title", Str(given.value), key);
    }
  }

  lemma StringAtStays(pascal: Pascal, v: Json, base: Option<string>, given: Option<string>, key: string)
    requires v.Obj?
    ensures StringAt(Annotate(pascal, v, base, given).entries, key) ==
            if key == "title" && given.Some? then given else StringAt(v.entries, key)
  {
    hide Annotate, AnnotateAt;
    ChildOfAnnotated(pascal, v, base, given, key);
    if Get(v.entries, key).Some? {
      StringsStay(pascal, key, Get(v.entries, key).value, base, if given.Some? then given else TitleOf(v), None);
    }
  }

  lemma TitleStays(pascal: Pascal, v: Json, base: Option<string>, given: Option<string>)
    ensures TitleOf(Annotate(pascal, v, base, given)) == if v.Obj? && given.Some? then given else TitleOf(v)
  {
    if v.Obj? {
      hide Annotate;
      StringAtStays(pascal, v, base, given, "title");
      ChildOfAnnotated(pascal, v, base, given, "title");
    }
  }

  lemma EnumIsPlain(pascal: Pascal, v: Json, base: Option<string>, owner: Option<string>)
    ensures var r := AnnotateAt(pascal, "enum", v, base, owner);
            (r.Arr? <==> v.Arr?) && (v.Arr? ==> r == Arr(AnnotateItems(pascal, v.items, base)))
  {
  }

  lemma FirstEnumStays(pascal: Pascal, v: Json, base: Option<string>, given: Option<string>)
    requires v.Obj?
    ensures FirstEnum(Annotate(pascal, v, base, given).entries) == FirstEnum(v.entries)
  {
    hide Annotate, AnnotateAt;
    ChildOfAnnotated(pascal, v, base, given, "enum");
    var e := Get(v.entries, "enum");
    if e.Some? {
      EnumIsPlain(pascal, e.value, base, if given.Some? then given else TitleOf(v));
      if e.value.Arr? && e.value.items != [] {
        StringsStay(pascal, "enum", e.value.items[0], base, None, None);
      }
    }
  }

  lemma LiteralStays(pascal: Pascal, v: Json, base: Option<string>, given: Option<string>)
    ensures StringLiteral(Annotate(pascal, v, base, given)) == StringLiteral(v)
  {
    if v.Obj? {
      ChildOfAnnotated(pascal, v, base, given, "enum");
      hide Annotate, FirstEnum, StringAt;
      StringAtStays(pascal, v, base, given, "const");
      FirstEnumStays(pascal, v, base, given);
    }
  }

  /** Every title given to a variant differs from every other title in the
      list, and titles that were there stay. */
  lemma NewTitlesAreUnique(pascal: Pascal, items: seq<Json>, base: Option<string>, i: nat, j: nat)
    requires i < |items| && j < |items| && i != j && TitleOf(items[i]).None?
    ensures var r := AnnotateVariants(pascal, items, base);
            && (TitleOf(r[i]).Some? ==> TitleOf(r[j]) != TitleOf(r[i]))
            && (TitleOf(items[j]).Some? ==> TitleOf(r[j]) == TitleOf(items[j]))
            && (base.Some? && VariantName(pascal, base.value, items[i]).Some? ==> TitleOf(r[i]).Some?)
  {
    hide Annotate, VariantName;
    var titles := NewTitles(pascal, items, base, Titles(items));
    NewTitlesAvoid(pascal, items, base, Titles(items));
    TitleStays(pascal, items[i], base, titles[i]);
    TitleStays(pascal, items[j], base, titles[j]);
    NamedIsObject(pascal, base, items[i]);
    NamedIsObject(pascal, base, items[j]);
    assert TitleOf(items[j]).Some? ==> TitleOf(items[j]).value in Titles(items);
  }

  lemma NamedIsObject(pascal: Pascal, base: Option<string>, variant: Json)
    ensures NewName(pascal, base, variant).Some? ==> variant.Obj?
  {
  }

  // -------------------------------------------------------- annotating twice

  lemma {:induction false} InsertThenAnnotate(
      pascal: Pascal, es: seq<Entry>, base: Option<string>, owner: Option<string>, title: string)
    ensures AnnotateEntries(pascal, Insert(es, "title", Str(title)), base, owner)
            == Insert(AnnotateEntries(pascal, es, base, owner), "title", Str(title))
  {
    StringsStay(pascal, "title", Str(title), base, owner, None);
    hide AnnotateAt;
    var inserted := Insert(es, "title", Str(title));
    if es != [] {
      AnnotateCons(pascal, es[0], es[1..], base, owner);
      assert es == [es[0]] + es[1..];
      AnnotateCons(pascal, inserted[0], inserted[1..], base, owner);
      assert inserted == [inserted[0]] + inserted[1..];
      var once := AnnotateEntries(pascal, es, base, owner);
      assert once[1..] == AnnotateEntries(pascal, es[1..], base, owner);
      if es[0].key != "title" {
        InsertThenAnnotate(pascal, es[1..], base, owner, title);
        assert inserted[1..] == Insert(es[1..], "title", Str(title));
      } else {
        assert inserted[1..] == es[1..];
      }
    }
  }

  lemma AnnotateCons(pascal: Pascal, e: Entry, rest: seq<Entry>, base: Option<string>, owner: Option<string>)
    ensures AnnotateEntries(pascal, [e] + rest, base, owner)
            == [Entry(e.key, AnnotateAt(pascal, e.key, e.value, base, owner))]
               + AnnotateEntries(pascal, rest, base, owner)
  {
    hide AnnotateAt;
  }

  /** Annotating with a given title is inserting the title and annotating. */
  lemma GivenIsInserted(pascal: Pascal, v: Json, base: Option<string>, title: string)
    requires v.Obj?
    ensures Annotate(pascal, v, base, Some(title))
            == Annotate(pascal, Obj(Insert(v.entries, "title", Str(title))), base, None)
  {
    GetInserted(v.entries, "title", Str(title), "title");
    InsertThenAnnotate(pascal, v.entries, base, Some(title), title);
    hide AnnotateEntries;
  }

  lemma {:induction false} GetInProperties(
      pascal: Pascal, es: seq<Entry>, base: Option<string>, owner: Option<string>, key: string)
    ensures Get(AnnotateProperties(pascal, es, base, owner), key) ==
            if Get(es, key).None? then None
            else Some(Annotate(pascal, Get(es, key).value, base,
                               DiscriminatorTitle(pascal, owner, key, Get(es, key).value)))
  {
    hide Annotate, DiscriminatorTitle;
    if es != [] && es[0].key != key {
      GetInProperties(pascal, es[1..], base, owner, key);
      assert AnnotateProperties(pascal, es, base, owner)[1..] == AnnotateProperties(pascal, es[1..], base, owner);
    }
  }

  lemma LiteralInProperties(
      pascal: Pascal, es: seq<Entry>, base: Option<string>, owner: Option<string>, key: string)
    ensures LiteralAt(AnnotateProperties(pascal, es, base, owner), key) == LiteralAt(es, key)
  {
    hide Annotate, DiscriminatorTitle;
    GetInProperties(pascal, es, base, owner, key);
    if Get(es, key).Some? {
      LiteralStays(pascal, Get(es, key).value, base, DiscriminatorTitle(pascal, owner, key, Get(es, key).value));
    }
  }

  lemma PropertyNameStays(
      pascal: Pascal, name: string, es: seq<Entry>, base: Option<string>, owner: Option<string>)
    ensures PropertyName(pascal, name, AnnotateProperties(pascal, es, base, owner)) == PropertyName(pascal, name, es)
  {
    hide LiteralAt;
    LiteralInProperties(pascal, es, base, owner, "method");
    LiteralInProperties(pascal, es, base, owner, "type");
  }

  lemma RequiredNameStays(pascal: Pascal, name: string, v: Json, base: Option<string>, given: Option<string>)
    requires v.Obj?
    ensures RequiredName(pascal, name, Annotate(pascal, v, base, given).entries)
            == RequiredName(pascal, name, v.entries)
  {
    ChildOfAnnotated(pascal, v, base, given, "required");
    var required := Get(v.entries, "required");
    if required.Some? {
      var owner := if given.Some? then given else TitleOf(v);
      RequiredIsPlain(pascal, required.value, base, owner);
      if required.value.Arr? && |required.value.items| == 1 {
        StringsStay(pascal, "required", required.value.items[0], base, owner, None);
      }
    }
    hide Annotate, AnnotateAt;
  }

  lemma RequiredIsPlain(pascal: Pascal, v: Json, base: Option<string>, owner: Option<string>)
    ensures var r := AnnotateAt(pascal, "required", v, base, owner);
            (r.Arr? <==> v.Arr?) && (v.Arr? ==> r == Arr(AnnotateItems(pascal, v.items, base)))
  {
  }

  /** The name of a variant does not depend on whether it was annotated. */
  lemma NameStays(pascal: Pascal, name: string, v: Json, base: Option<string>, given: Option<string>)
    ensures VariantName(pascal, name, Annotate(pascal, v, base, given)) == VariantName(pascal, name, v)
  {
    if v.Obj? {
      RequiredNameStays(pascal, name, v, base, given);
      ChildOfAnnotated(pascal, v, base, given, "properties");
      var owner := if given.Some? then given else TitleOf(v);
      var properties := Get(v.entries, "properties");
      if properties.Some? && properties.value.Obj? {
        PropertyNameStays(pascal, name, properties.value.entries, base, owner);
        assert AnnotateAt(pascal, "properties", properties.value, base, owner)
            == Obj(AnnotateProperties(pascal, properties.value.entries, base, owner));
      } else if properties.Some? {
        assert AnnotateAt(pascal, "properties", properties.value, base, owner) == properties.value;
      }
      hide Annotate, AnnotateAt, RequiredName, PropertyName;
    }
  }

  lemma {:induction false} NothingNew(pascal: Pascal, items: seq<Json>, base: Option<string>, seen: set<string>)
    requires forall i | 0 <= i < |items| :: NewName(pascal, base, items[i]).None?
    ensures forall i | 0 <= i < |items| :: NewTitles(pascal, items, base, seen)[i] == None
  {
    hide NewName;
    if items != [] {
      NothingNew(pascal, items[1..], base, seen);
    }
  }

  /** After one pass no variant is left to be named. */
  lemma AllNamed(pascal: Pascal, items: seq<Json>, base: Option<string>, r: seq<Json>)
    requires r == AnnotateVariants(pascal, items, base)
    ensures |r| == |items| && forall i | 0 <= i < |r| :: NewName(pascal, base, r[i]).None?
  {
    hide Annotate, VariantName;
    var titles := NewTitles(pascal, items, base, Titles(items));
    NewTitlesAvoid(pascal, items, base, Titles(items));
    forall i | 0 <= i < |items|
      ensures NewName(pascal, base, r[i]).None?
    {
      TitleStays(pascal, items[i], base, titles[i]);
      NamedIsObject(pascal, base, items[i]);
      if base.Some? {
        NameStays(pascal, base.value, items[i], base, titles[i]);
      }
    }
  }

  /** What the theorem below says about one value. */
  ghost predicate Settled(pascal: Pascal, v: Json, base: Option<string>) {
    Annotate(pascal, v, base, None) == v
  }

  lemma NoSecondDiscriminator(pascal: Pascal, owner: Option<string>, key: string, prop: Json, base: Option<string>)
    ensures var given := DiscriminatorTitle(pascal, owner, key, prop);
            DiscriminatorTitle(pascal, owner, key, Annotate(pascal, prop, base, given)) == None
  {
    hide Annotate;
    var given := DiscriminatorTitle(pascal, owner, key, prop);
    LiteralStays(pascal, prop, base, given);
    if prop.Obj? {
      ChildOfAnnotated(pascal, prop, base, given, "title");
    }
  }

  /** Annotating again with the same base changes nothing. */
  lemma {:induction false} AnnotatingTwice(pascal: Pascal, v: Json, base: Option<string>, given: Option<string>)
    ensures Settled(pascal, Annotate(pascal, v, base, given), base)
    decreases v, 1
  {
    match v
    case Arr(items) =>
      var r := AnnotateItems(pascal, items, base);
      forall i | 0 <= i < |items|
        ensures Settled(pascal, r[i], base)
      {
        AnnotatingTwice(pascal, items[i], base, None);
      }
      hide Annotate;
      SettledItems(pascal, r, base);
      ItemsUnfold(pascal, items, base);
      ItemsUnfold(pascal, r, base);
    case Obj(es) =>
      var owner := if given.Some? then given else TitleOf(v);
      var once := AnnotateEntries(pascal, es, base, owner);
      forall i | 0 <= i < |es|
        ensures AnnotateAt(pascal, es[i].key, once[i].value, base, owner) == once[i].value
      {
        ChildTwice(pascal, es[i].key, es[i].value, base, owner);
      }
      hide AnnotateAt;
      assert AnnotateEntries(pascal, once, base, owner) == once;
      TitleStays(pascal, v, base, given);
      if given.Some? {
        InsertThenAnnotate(pascal, once, base, owner, given.value);
      }
    case _ =>
  }

  lemma ItemsUnfold(pascal: Pascal, items: seq<Json>, base: Option<string>)
    ensures Annotate(pascal, Arr(items), base, None) == Arr(AnnotateItems(pascal, items, base))
  {
  }

  lemma SettledItems(pascal: Pascal, items: seq<Json>, base: Option<string>)
    requires forall i | 0 <= i < |items| :: Settled(pascal, items[i], base)
    ensures AnnotateItems(pascal, items, base) == items
  {
    assert forall i | 0 <= i < |items| :: Annotate(pascal, items[i], base, None) == items[i];
  }

  lemma {:induction false} ChildTwice(
      pascal: Pascal, key: string, v: Json, base: Option<string>, owner: Option<string>)
    ensures var r := AnnotateAt(pascal, key, v, base, owner);
            AnnotateAt(pascal, key, r, base, owner) == r
    decreases v, 2
  {
    hide Annotate;
    if key == "oneOf" || key == "anyOf" {
      if v.Arr? {
        VariantsTwice(pascal, v, base);
      }
    } else if key == "definitions" || key == "$defs" {
      if v.Obj? {
        var r := AnnotateNamed(pascal, v.entries);
        forall i | 0 <= i < |r|
          ensures Annotate(pascal, r[i].value, Some(r[i].key), None) == r[i].value
        {
          AnnotatingTwice(pascal, v.entries[i].value, Some(r[i].key), None);
          assert Settled(pascal, r[i].value, Some(r[i].key));
        }
        assert AnnotateNamed(pascal, r) == r;
      }
    } else if key == "properties" {
      if v.Obj? {
        PropertiesTwice(pascal, v, base, owner);
      }
    } else {
      AnnotatingTwice(pascal, v, base, None);
      assert Settled(pascal, Annotate(pascal, v, base, None), base);
    }
  }

  lemma {:induction false} PropertiesTwice(pascal: Pascal, v: Json, base: Option<string>, owner: Option<string>)
    requires v.Obj?
    ensures var r := AnnotateProperties(pascal, v.entries, base, owner);
            AnnotateProperties(pascal, r, base, owner) == r
    decreases v, 0
  {
    hide Annotate, DiscriminatorTitle;
    var r := AnnotateProperties(pascal, v.entries, base, owner);
    forall i | 0 <= i < |r|
      ensures Annotate(pascal, r[i].value, base, DiscriminatorTitle(pascal, owner, r[i].key, r[i].value)) == r[i].value
    {
      var prop, k := v.entries[i].value, v.entries[i].key;
      NoSecondDiscriminator(pascal, owner, k, prop, base);
      AnnotatingTwice(pascal, prop, base, DiscriminatorTitle(pascal, owner, k, prop));
      assert Settled(pascal, r[i].value, base);
    }
  }

  lemma {:induction false} VariantsTwice(pascal: Pascal, v: Json, base: Option<string>)
    requires v.Arr?
    ensures var r := AnnotateVariants(pascal, v.items, base);
            AnnotateVariants(pascal, r, base) == r
    decreases v, 0
  {
    hide Annotate, NewName;
    var titles := NewTitles(pascal, v.items, base, Titles(v.items));
    var r := AnnotateVariants(pascal, v.items, base);
    AllNamed(pascal, v.items, base, r);
    NothingNew(pascal, r, base, Titles(r));
    forall i | 0 <= i < |r|
      ensures Annotate(pascal, r[i], base, None) == r[i]
    {
      AnnotatingTwice(pascal, v.items[i], base, titles[i]);
      assert Settled(pascal, r[i], base);
    }
  }
}
