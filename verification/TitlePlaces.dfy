/** Which titles a schema gets and where, told from the schema before and after
    (the `annotate_*` functions of code-rs/app-server-protocol/src/export.rs). */
module TitlePlaces {
  import opened Text
  import opened Json
  import opened TitleAnnotation

  // ------------------------------------------------------------------- places

  /** From a schema to a schema in it. */
  datatype Move =
    | Variant(key: string, index: nat)
    | Definition(key: string, name: string)
    | Property(name: string)
    | Child(key: string)
    | Item(index: nat)

  const CONTAINERS := ["oneOf", "anyOf", "definitions", "$defs", "properties"]

  function Member(v: Option<Json>, key: string): Option<Json> {
    if v.Some? && v.value.Obj? then Get(v.value.entries, key) else None
  }

  function Element(v: Option<Json>, i: nat): Option<Json> {
    if v.Some? && v.value.Arr? && i < |v.value.items| then Some(v.value.items[i]) else None
  }

  function Go(v: Json, move: Move): Option<Json> {
    match move
    case Variant(key, i) => if key in ["oneOf", "anyOf"] then Element(Member(Some(v), key), i) else None
    case Definition(key, name) =>
      if key in ["definitions", "$defs"] then Member(Member(Some(v), key), name) else None
    case Property(name) => Member(Member(Some(v), "properties"), name)
    case Child(key) => if key in CONTAINERS || key == "title" then None else Member(Some(v), key)
    case Item(i) => Element(Some(v), i)
  }

  function Follow(v: Json, route: seq<Move>): Option<Json> {
    if route == [] then Some(v)
    else
      var before := Follow(v, route[..|route| - 1]);
      if before.Some? then Go(before.value, route[|route| - 1]) else None
  }

  /** The name of the innermost definition a route leads through. */
  function BaseAlong(route: seq<Move>, base: Option<string>): Option<string> {
    if route == [] then base
    else if route[|route| - 1].Definition? then Some(route[|route| - 1].name)
    else BaseAlong(route[..|route| - 1], base)
  }

  // ------------------------------------------------------------------- titles

  /** A schema for one string: its `const`, else the first of its `enum`. */
  predicate IsLiteral(v: Json, s: string) {
    && v.Obj?
    && var constant, enum := Get(v.entries, "const"), Get(v.entries, "enum");
       || constant == Some(Str(s))
       || (!(constant.Some? && constant.value.Str?) && Element(enum, 0) == Some(Str(s)))
  }

  predicate HasLiteral(v: Json, property: string, s: string) {
    var prop := Go(v, Property(property));
    prop.Some? && IsLiteral(prop.value, s)
  }

  predicate HasOneProperty(v: Json, name: string) {
    var props := Member(Some(v), "properties");
    props.Some? && props.value.Obj? && |props.value.entries| == 1 && props.value.entries[0].key == name
  }

  /** What `method` literals are joined with, by the union they are in. */
  predicate IsMethodSuffix(base: string, suffix: string) {
    && (base in ["ClientRequest", "ServerRequest"] ==> suffix == "Request")
    && (base in ["ClientNotification", "ServerNotification"] ==> suffix == "Notification")
    && (base !in ["ClientRequest", "ServerRequest", "ClientNotification", "ServerNotification"] ==> suffix == base)
  }

  /** The name of a variant: by its method, else its type, else its only
      property, else the only property it requires. */
  ghost predicate IsNameFor(pascal: Pascal, base: string, v: Json, name: string) {
    if exists s :: HasLiteral(v, "method", s) then
      exists s, suffix :: HasLiteral(v, "method", s) && IsMethodSuffix(base, suffix) && name == pascal(s) + suffix
    else if exists s :: HasLiteral(v, "type", s) then
      exists s :: HasLiteral(v, "type", s) && name == pascal(s) + base
    else if exists key :: HasOneProperty(v, key) then
      exists key :: HasOneProperty(v, key) && name == pascal(key) + base
    else
      exists key :: Member(Some(v), "required") == Some(Arr([Str(key)])) && name == pascal(key) + base
  }

  /** The name, or the name with the first number from 2 on that makes it new. */
  ghost predicate IsFirstFree(name: string, seen: set<string>, title: string) {
    && title !in seen
    && (title == name ||
        (name in seen &&
         exists k: nat | k >= 2 :: title == name + Decimal(k) && forall j | 2 <= j < k :: name + Decimal(j) in seen))
  }

  function Variants(v: Json, key: string): seq<Json> {
    var list := Member(Some(v), key);
    if list.Some? && list.value.Arr? then list.value.items else []
  }

  /** The titles that were in a list of variants, and those given up to the `i`-th. */
  function TitlesUpTo(before: seq<Json>, after: seq<Json>, i: nat): set<string> {
    (set v | v in before && TitleOf(v).Some? :: TitleOf(v).value)
    + (set v | v in after[..if i < |after| then i else |after|] && TitleOf(v).Some? :: TitleOf(v).value)
  }

  /** `t` is the title given to the schema `o`, which `move` leads to from a
      schema that was `v` before and is `r` after annotating. */
  ghost predicate IsGiven(
      pascal: Pascal, v: Json, r: Json, base: Option<string>, move: Move, o: Json, t: Option<string>) {
    match move
    case Variant(key, i) =>
      if TitleOf(o).None? && base.Some? && exists name :: IsNameFor(pascal, base.value, o, name) then
        && t.Some?
        && exists name :: IsNameFor(pascal, base.value, o, name) &&
             IsFirstFree(name, TitlesUpTo(Variants(v, key), Variants(r, key), i), t.value)
      else t.None?
    case Property(key) =>
      if && key in ["type", "method", "mode", "status", "role", "reason"] && TitleOf(r).Some?
         && (exists s :: IsLiteral(o, s)) && Member(Some(o), "title").None?
      then t == Some(TitleOf(r).value + pascal(key))
      else t.None?
    case _ => t.None?
  }

  // ------------------------------------------------------------- same meaning

  lemma LiteralIff(v: Json, s: string)
    ensures StringLiteral(v) == Some(s) <==> IsLiteral(v, s)
  {
  }

  lemma LiteralAtIff(v: Json, property: string, props: seq<Entry>, s: string)
    requires Member(Some(v), "properties") == Some(Obj(props))
    ensures LiteralAt(props, property) == Some(s) <==> HasLiteral(v, property, s)
  {
    hide IsLiteral, StringLiteral;
    if Get(props, property).Some? {
      LiteralIff(Get(props, property).value, s);
    }
  }

  lemma SuffixOf(base: string)
    ensures IsMethodSuffix(base, MethodSuffix(base))
  {
  }

  lemma SuffixIsUnique(base: string, suffix: string)
    requires IsMethodSuffix(base, suffix)
    ensures suffix == MethodSuffix(base)
  {
  }

  /** The name by properties, for a variant that has some. */
  lemma PropertyNameIff(pascal: Pascal, base: string, v: Json, props: seq<Entry>, name: string)
    requires Member(Some(v), "properties") == Some(Obj(props))
    ensures PropertyName(pascal, base, props).Some? ==>
              (PropertyName(pascal, base, props) == Some(name) <==> IsNameFor(pascal, base, v, name))
    ensures PropertyName(pascal, base, props).None? ==>
              && !(exists s :: HasLiteral(v, "method", s)) && !(exists s :: HasLiteral(v, "type", s))
              && !(exists key :: HasOneProperty(v, key))
  {
    hide LiteralAt, HasLiteral, IsMethodSuffix, MethodSuffix;
    forall property, s
      ensures LiteralAt(props, property) == Some(s) <==> HasLiteral(v, property, s)
    {
      LiteralAtIff(v, property, props, s);
    }
    SuffixOf(base);
    forall suffix | IsMethodSuffix(base, suffix)
      ensures suffix == MethodSuffix(base)
    {
      SuffixIsUnique(base, suffix);
    }
    var byMethod, byType := LiteralAt(props, "method"), LiteralAt(props, "type");
    if byMethod.Some? {
      assert HasLiteral(v, "method", byMethod.value);
    } else if byType.Some? {
      assert HasLiteral(v, "type", byType.value);
    } else if |props| == 1 {
      assert HasOneProperty(v, props[0].key);
    }
  }

  lemma RequiredNameIff(pascal: Pascal, base: string, v: Json, name: string)
    requires v.Obj?
    ensures RequiredName(pascal, base, v.entries) == Some(name) <==>
            exists key :: Member(Some(v), "required") == Some(Arr([Str(key)])) && name == pascal(key) + base
  {
    var required := Get(v.entries, "required");
    if RequiredName(pascal, base, v.entries).Some? {
      var key := required.value.items[0].s;
      assert required.value.items == [Str(key)];
      assert Member(Some(v), "required") == Some(Arr([Str(key)]));
    }
  }

  lemma NoPropertiesNoName(v: Json)
    requires var props := Member(Some(v), "properties"); props.None? || !props.value.Obj?
    ensures !(exists s :: HasLiteral(v, "method", s)) && !(exists s :: HasLiteral(v, "type", s))
    ensures !(exists key :: HasOneProperty(v, key))
  {
  }

  /** The derived name is the one described. */
  lemma NameIff(pascal: Pascal, base: string, v: Json, name: string)
    ensures VariantName(pascal, base, v) == Some(name) <==> IsNameFor(pascal, base, v, name)
  {
    hide PropertyName, RequiredName, HasLiteral, HasOneProperty, IsMethodSuffix;
    var props := Member(Some(v), "properties");
    if v.Obj? {
      RequiredNameIff(pascal, base, v, name);
    }
    if props.Some? && props.value.Obj? {
      PropertyNameIff(pascal, base, v, props.value.entries, name);
    } else {
      NoPropertiesNoName(v);
    }
  }

  lemma {:induction false} EarlierCandidatesSeen(name: string, k: nat, seen: set<string>, left: set<string>)
      returns (j: nat)
    requires k >= 1 && forall i | i >= k :: Candidate(name, i) in seen ==> Candidate(name, i) in left
    ensures j >= k && FirstFree(name, k, seen, left) == Candidate(name, j)
    ensures forall i | k <= i < j :: Candidate(name, i) in seen
    decreases |left|
  {
    hide Candidate;
    var c := Candidate(name, k);
    j := k;
    if c in seen {
      forall i | i > k
        ensures Candidate(name, i) != c
      {
        CandidatesDiffer(name, k, i);
      }
      j := EarlierCandidatesSeen(name, k + 1, seen, left - {c});
    }
  }

  lemma FreeIsFirst(name: string, seen: set<string>)
    ensures IsFirstFree(name, seen, FreeName(name, seen))
  {
    hide FirstFree;
    var j := EarlierCandidatesSeen(name, 1, seen, seen);
    if j > 1 {
      assert Candidate(name, 1) in seen;
      forall i | 2 <= i < j
        ensures name + Decimal(i) in seen
      {
        assert Candidate(name, i) in seen;
      }
      assert FreeName(name, seen) == name + Decimal(j);
    }
  }

  // ------------------------------------------------------------------ variants

  function GivenBefore(titles: seq<Option<string>>, i: nat): set<string>
    requires i <= |titles|
  {
    set j | 0 <= j < i && titles[j].Some? :: titles[j].value
  }

  lemma {:induction false} TitleAtIndex(
      pascal: Pascal, items: seq<Json>, base: Option<string>, seen: set<string>, i: nat)
    requires i < |items|
    ensures var titles, name := NewTitles(pascal, items, base, seen), NewName(pascal, base, items[i]);
            titles[i] == if name.None? then None
                         else Some(FreeName(name.value, seen + GivenBefore(titles, i)))
  {
    hide FreeName, NewName;
    var titles := NewTitles(pascal, items, base, seen);
    if i == 0 {
      assert seen + GivenBefore(titles, 0) == seen;
    } else {
      var name := NewName(pascal, base, items[0]);
      var more := if name.None? then {} else {FreeName(name.value, seen)};
      assert seen + {} == seen;
      TitleAtIndex(pascal, items[1..], base, seen + more, i - 1);
      GivenBeforeCons(titles, i);
      assert seen + more + GivenBefore(titles[1..], i - 1) == seen + GivenBefore(titles, i);
    }
  }

  lemma GivenBeforeCons(titles: seq<Option<string>>, i: nat)
    requires 0 < i <= |titles|
    ensures GivenBefore(titles, i)
            == (if titles[0].Some? then {titles[0].value} else {}) + GivenBefore(titles[1..], i - 1)
  {
    forall t | t in GivenBefore(titles, i)
      ensures titles[0] == Some(t) || t in GivenBefore(titles[1..], i - 1)
    {
      var j :| 0 <= j < i && titles[j] == Some(t);
      if j > 0 {
        assert titles[1..][j - 1] == Some(t);
      }
    }
    forall t | t in GivenBefore(titles[1..], i - 1)
      ensures t in GivenBefore(titles, i)
    {
      var j :| 0 <= j < i - 1 && titles[1..][j] == Some(t);
      assert titles[j + 1] == Some(t);
    }
  }

  /** The names a title must avoid, read off the list before and after. */
  lemma SeenIsTitlesUpTo(pascal: Pascal, items: seq<Json>, base: Option<string>, i: nat)
    requires i < |items|
    ensures var titles := NewTitles(pascal, items, base, Titles(items));
            Titles(items) + GivenBefore(titles, i)
            == TitlesUpTo(items, AnnotateVariants(pascal, items, base), i)
  {
    hide Annotate, NewTitles, AnnotateVariants;
    var titles, r := NewTitles(pascal, items, base, Titles(items)), AnnotateVariants(pascal, items, base);
    assert r[..if i < |r| then i else |r|] == r[..i];
    forall j | 0 <= j < |items|
      ensures TitleOf(r[j]) == if titles[j].Some? then titles[j] else TitleOf(items[j])
    {
      VariantTitle(pascal, items, base, j);
    }
    forall t | t in GivenBefore(titles, i)
      ensures t in TitlesUpTo(items, r, i)
    {
      var j :| 0 <= j < i && titles[j] == Some(t);
      assert r[..i][j] == r[j];
    }
    forall t | t in TitlesUpTo(items, r, i)
      ensures t in Titles(items) + GivenBefore(titles, i)
    {
      if v :| v in items && TitleOf(v) == Some(t) {
        var j :| 0 <= j < |items| && items[j] == v;
      } else {
        var v :| v in r[..i] && TitleOf(v) == Some(t);
        var j :| 0 <= j < i && r[j] == v;
      }
    }
    forall t | t in Titles(items)
      ensures t in TitlesUpTo(items, r, i)
    {
      var j :| 0 <= j < |items| && TitleOf(items[j]) == Some(t);
      assert items[j] in items;
    }
  }

  lemma VariantTitle(pascal: Pascal, items: seq<Json>, base: Option<string>, j: nat)
    requires j < |items|
    ensures var titles := NewTitles(pascal, items, base, Titles(items));
            TitleOf(AnnotateVariants(pascal, items, base)[j])
            == if titles[j].Some? then titles[j] else TitleOf(items[j])
  {
    hide Annotate, VariantName;
    var titles := NewTitles(pascal, items, base, Titles(items));
    NewTitlesAvoid(pascal, items, base, Titles(items));
    TitleStays(pascal, items[j], base, titles[j]);
    NamedIsObject(pascal, base, items[j]);
  }

  lemma VariantIsGiven(pascal: Pascal, v: Json, r: Json, base: Option<string>, key: string, i: nat)
    requires Member(Some(v), key) == Some(Arr(Variants(v, key))) && i < |Variants(v, key)|
    requires Member(Some(r), key) == Some(Arr(AnnotateVariants(pascal, Variants(v, key), base)))
    ensures var items := Variants(v, key);
            IsGiven(pascal, v, r, base, Variant(key, i), items[i],
                    NewTitles(pascal, items, base, Titles(items))[i])
  {
    hide AnnotateVariants, NewTitles, VariantName, FreeName, IsNameFor, IsFirstFree, TitlesUpTo;
    var items := Variants(v, key);
    var o, name := items[i], NewName(pascal, base, items[i]);
    TitleAtIndex(pascal, items, base, Titles(items), i);
    SeenIsTitlesUpTo(pascal, items, base, i);
    assert Variants(r, key) == AnnotateVariants(pascal, items, base);
    if base.Some? {
      forall n
        ensures VariantName(pascal, base.value, o) == Some(n) <==> IsNameFor(pascal, base.value, o, n)
      {
        NameIff(pascal, base.value, o, n);
      }
    }
    if name.Some? {
      assert IsNameFor(pascal, base.value, o, name.value);
      FreeIsFirst(name.value, TitlesUpTo(items, Variants(r, key), i));
    }
  }

  lemma PropertyIsGiven(pascal: Pascal, v: Json, r: Json, base: Option<string>, key: string, o: Json)
    ensures IsGiven(pascal, v, r, base, Property(key), o, DiscriminatorTitle(pascal, TitleOf(r), key, o))
  {
    hide IsLiteral, StringLiteral;
    forall s
      ensures StringLiteral(o) == Some(s) <==> IsLiteral(o, s)
    {
      LiteralIff(o, s);
    }
    if StringLiteral(o).Some? {
      assert IsLiteral(o, StringLiteral(o).value);
      LiteralIsObject(o);
    }
  }

  lemma LiteralIsObject(o: Json)
    requires StringLiteral(o).Some?
    ensures o.Obj?
  {
  }

  /** What annotating does to the containers of schemas. */
  lemma ContainersAnnotated(pascal: Pascal, key: string, v: Json, base: Option<string>, owner: Option<string>)
    ensures var r := AnnotateAt(pascal, key, v, base, owner);
            && (key in ["oneOf", "anyOf"] && v.Arr? ==> r == Arr(AnnotateVariants(pascal, v.items, base)))
            && (key in ["definitions", "$defs"] && v.Obj? ==> r == Obj(AnnotateNamed(pascal, v.entries)))
            && (key == "properties" && v.Obj? ==> r == Obj(AnnotateProperties(pascal, v.entries, base, owner)))
            && (key in ["oneOf", "anyOf"] && !v.Arr? ==> r == v)
            && (key in ["definitions", "$defs", "properties"] && !v.Obj? ==> r == v)
            && (key !in CONTAINERS ==> r == Annotate(pascal, v, base, None))
  {
    hide Annotate;
  }

  lemma {:induction false} GetNamed(pascal: Pascal, es: seq<Entry>, key: string)
    ensures Get(AnnotateNamed(pascal, es), key) ==
            if Get(es, key).None? then None else Some(Annotate(pascal, Get(es, key).value, Some(key), None))
  {
    hide Annotate;
    if es != [] && es[0].key != key {
      GetNamed(pascal, es[1..], key);
      assert AnnotateNamed(pascal, es)[1..] == AnnotateNamed(pascal, es[1..]);
    }
  }

  /** What a move from an annotated schema leads to. */
  lemma MoveAnnotated(pascal: Pascal, v: Json, base: Option<string>, given: Option<string>, move: Move)
      returns (t: Option<string>)
    requires Go(v, move).Some?
    ensures var r, inner := Annotate(pascal, v, base, given), BaseAlong([move], base);
            && Go(r, move) == Some(Annotate(pascal, Go(v, move).value, inner, t))
            && IsGiven(pascal, v, r, inner, move, Go(v, move).value, t)
  {
    hide Annotate, AnnotateAt, AnnotateVariants, AnnotateNamed, AnnotateProperties, NewTitles, IsGiven;
    t := None;
    var r, owner := Annotate(pascal, v, base, given), if given.Some? then given else TitleOf(v);
    TitleStays(pascal, v, base, given);
    match move
    case Item(i) => ItemAnnotated(pascal, v, base, given, i);
    case Child(key) =>
      ChildOfAnnotated(pascal, v, base, given, key);
      ContainersAnnotated(pascal, key, Get(v.entries, key).value, base, owner);
      NothingGiven(pascal, v, r, base, move);
    case Variant(key, i) =>
      ChildOfAnnotated(pascal, v, base, given, key);
      ContainersAnnotated(pascal, key, Get(v.entries, key).value, base, owner);
      t := NewTitles(pascal, Variants(v, key), base, Titles(Variants(v, key)))[i];
      VariantIsGiven(pascal, v, r, base, key, i);
      VariantAt(pascal, Variants(v, key), base, i);
    case Definition(key, name) =>
      ChildOfAnnotated(pascal, v, base, given, key);
      ContainersAnnotated(pascal, key, Get(v.entries, key).value, base, owner);
      GetNamed(pascal, Get(v.entries, key).value.entries, name);
      NothingGiven(pascal, v, r, Some(name), move);
    case Property(name) =>
      ChildOfAnnotated(pascal, v, base, given, "properties");
      var props := Get(v.entries, "properties").value;
      ContainersAnnotated(pascal, "properties", props, base, owner);
      GetInProperties(pascal, props.entries, base, owner, name);
      t := DiscriminatorTitle(pascal, owner, name, Go(v, move).value);
      PropertyIsGiven(pascal, v, r, base, name, Go(v, move).value);
  }

  lemma VariantAt(pascal: Pascal, items: seq<Json>, base: Option<string>, i: nat)
    requires i < |items|
    ensures AnnotateVariants(pascal, items, base)[i]
            == Annotate(pascal, items[i], base, NewTitles(pascal, items, base, Titles(items))[i])
  {
  }

  lemma NothingGiven(pascal: Pascal, v: Json, r: Json, base: Option<string>, move: Move)
    requires move.Child? || move.Definition? || move.Item?
    ensures forall o :: IsGiven(pascal, v, r, base, move, o, None)
  {
  }

  lemma ItemAnnotated(pascal: Pascal, v: Json, base: Option<string>, given: Option<string>, i: nat)
    requires v.Arr? && i < |v.items|
    ensures var r := Annotate(pascal, v, base, given);
            && Go(r, Item(i)) == Some(Annotate(pascal, v.items[i], base, None))
            && IsGiven(pascal, v, r, base, Item(i), v.items[i], None)
  {
    hide AnnotateVariants, AnnotateNamed, AnnotateProperties;
    assert Annotate(pascal, v, base, given) == Arr(AnnotateItems(pascal, v.items, base));
    hide Annotate;
  }

  // ------------------------------------------------------------------ theorems

  lemma {:induction false} RouteAnnotated(pascal: Pascal, v: Json, base: Option<string>, route: seq<Move>)
      returns (t: Option<string>)
    requires Follow(v, route).Some?
    ensures var r, o := Annotate(pascal, v, base, None), Follow(v, route).value;
            && Follow(r, route) == Some(Annotate(pascal, o, BaseAlong(route, base), t))
            && if route == [] then t == None
               else
                 var before, last := route[..|route| - 1], route[|route| - 1];
                 IsGiven(pascal, Follow(v, before).value, Follow(r, before).value, BaseAlong(route, base), last, o, t)
    decreases |route|
  {
    hide Annotate, Go, IsGiven;
    t := None;
    if route != [] {
      var before, last := route[..|route| - 1], route[|route| - 1];
      var given := RouteAnnotated(pascal, v, base, before);
      t := MoveAnnotated(pascal, Follow(v, before).value, BaseAlong(before, base), given, last);
      assert BaseAlong([last], BaseAlong(before, base)) == BaseAlong(route, base) by {
        assert [last][..0] == [];
      }
    }
  }

  /** The schema `route` leads to has the title given to it, else the one it had. */
  ghost predicate HasItsTitle(pascal: Pascal, v: Json, r: Json, base: Option<string>, route: seq<Move>)
    requires Follow(v, route).Some? && Follow(r, route).Some?
  {
    var o, a := Follow(v, route).value, Follow(r, route).value;
    if route == [] || !o.Obj? then TitleOf(a) == TitleOf(o)
    else
      var before, last := route[..|route| - 1], route[|route| - 1];
      var p, q := Follow(v, before).value, Follow(r, before).value;
      exists t :: && IsGiven(pascal, p, q, BaseAlong(route, base), last, o, t)
                  && TitleOf(a) == (if t.Some? then t else TitleOf(o))
  }

  /** Wherever a schema stands, annotating gives it the title described, or
      leaves it the one it has. */
  lemma EverySchemaGetsItsTitle(pascal: Pascal, v: Json, base: Option<string>, route: seq<Move>)
    requires Follow(v, route).Some?
    ensures var r := Annotate(pascal, v, base, None);
            Follow(r, route).Some? && HasItsTitle(pascal, v, r, base, route)
  {
    hide Annotate, Go, IsGiven, BaseAlong;
    var t := RouteAnnotated(pascal, v, base, route);
    TitleStays(pascal, Follow(v, route).value, BaseAlong(route, base), t);
  }

  predicate IsScalar(v: Json) {
    !v.Arr? && !v.Obj?
  }

  /** Equal up to titles, seen from the schema itself: scalars, lengths and keys
      stay, and so does a container of schemas that is not of the right kind. */
  ghost predicate SameButTitles(o: Json, a: Json) {
    && (IsScalar(o) ==> a == o)
    && (o.Arr? ==> a.Arr? && |a.items| == |o.items|)
    && (o.Obj? ==> a.Obj?)
    && (forall key | key != "title" :: SameMember(o, a, key))
    && (forall move :: Go(a, move).Some? <==> Go(o, move).Some?)
  }

  predicate SameMember(o: Json, a: Json, key: string) {
    var m, n := Member(Some(o), key), Member(Some(a), key);
    && (m.Some? <==> n.Some?)
    && (m.Some? ==>
          && (IsScalar(m.value) || !IsContainer(key, m.value) ==> n == m)
          && (m.value.Arr? ==> n.value.Arr? && |n.value.items| == |m.value.items|)
          && (m.value.Obj? ==> n.value.Obj?))
  }

  /** The kind of value the source expects under a key that holds schemas. */
  predicate IsContainer(key: string, v: Json) {
    && (key in ["oneOf", "anyOf"] ==> v.Arr?)
    && (key in ["definitions", "$defs", "properties"] ==> v.Obj?)
  }

  lemma MemberAnnotated(pascal: Pascal, v: Json, base: Option<string>, given: Option<string>, key: string)
    requires key != "title"
    ensures SameMember(v, Annotate(pascal, v, base, given), key)
  {
    hide Annotate, AnnotateAt;
    if v.Obj? {
      ChildOfAnnotated(pascal, v, base, given, key);
      if Get(v.entries, key).Some? {
        KindAtStays(pascal, key, Get(v.entries, key).value, base, if given.Some? then given else TitleOf(v));
      }
    } else {
      KindStays(pascal, v, base, given);
    }
  }

  lemma KindAtStays(pascal: Pascal, key: string, v: Json, base: Option<string>, owner: Option<string>)
    ensures var r := AnnotateAt(pascal, key, v, base, owner);
            && (IsScalar(v) || !IsContainer(key, v) ==> r == v)
            && (v.Arr? ==> r.Arr? && |r.items| == |v.items|)
            && (v.Obj? ==> r.Obj?)
  {
    hide Annotate, AnnotateAt;
    ContainersAnnotated(pascal, key, v, base, owner);
    KindStays(pascal, v, base, None);
  }

  lemma KindStays(pascal: Pascal, v: Json, base: Option<string>, given: Option<string>)
    ensures var r := Annotate(pascal, v, base, given);
            && (IsScalar(v) ==> r == v) && (v.Obj? ==> r.Obj?)
            && (v.Arr? ==> r.Arr? && |r.items| == |v.items|)
  {
  }

  lemma MovesStay(pascal: Pascal, v: Json, base: Option<string>, given: Option<string>, move: Move)
    ensures Go(Annotate(pascal, v, base, given), move).Some? <==> Go(v, move).Some?
  {
    hide Annotate, AnnotateAt;
    if Go(v, move).Some? {
      var t := MoveAnnotated(pascal, v, base, given, move);
    } else {
      KindStays(pascal, v, base, given);
      if !move.Item? {
        var key := if move.Property? then "properties" else move.key;
        if key != "title" {
          MemberAnnotated(pascal, v, base, given, key);
        }
        NoNewMembers(pascal, v, base, given, move);
      }
    }
  }

  lemma NoNewMembers(pascal: Pascal, v: Json, base: Option<string>, given: Option<string>, move: Move)
    requires (move.Property? || move.Definition?) ==> Go(v, move).None?
    ensures (move.Property? || move.Definition?) ==> Go(Annotate(pascal, v, base, given), move).None?
  {
    hide Annotate, AnnotateAt, AnnotateNamed, AnnotateProperties;
    if move.Property? || move.Definition? {
      var key := if move.Property? then "properties" else move.key;
      if key in CONTAINERS {
        MemberAnnotated(pascal, v, base, given, key);
        var m := Member(Some(v), key);
        if m.Some? && m.value.Obj? && IsContainer(key, m.value) {
          var owner := if given.Some? then given else TitleOf(v);
          ChildOfAnnotated(pascal, v, base, given, key);
          ContainersAnnotated(pascal, key, m.value, base, owner);
          GetNamed(pascal, m.value.entries, move.name);
          GetInProperties(pascal, m.value.entries, base, owner, move.name);
        }
      }
    }
  }

  /** Nothing but titles changes, wherever a schema stands. */
  lemma NothingElseChanges(pascal: Pascal, v: Json, base: Option<string>, route: seq<Move>)
    requires Follow(v, route).Some?
    ensures var r := Annotate(pascal, v, base, None);
            Follow(r, route).Some? && SameButTitles(Follow(v, route).value, Follow(r, route).value)
  {
    hide Annotate, Go, IsGiven, BaseAlong, SameMember;
    var t := RouteAnnotated(pascal, v, base, route);
    var o, b := Follow(v, route).value, BaseAlong(route, base);
    KindStays(pascal, o, b, t);
    forall key | key != "title"
      ensures SameMember(o, Annotate(pascal, o, b, t), key)
    {
      MemberAnnotated(pascal, o, b, t, key);
    }
    forall move
      ensures Go(Annotate(pascal, o, b, t), move).Some? <==> Go(o, move).Some?
    {
      MovesStay(pascal, o, b, t, move);
    }
  }

  /** `r` is `v` with its titles, and otherwise like `v`. */
  ghost predicate IsAnnotated(pascal: Pascal, v: Json, base: Option<string>, r: Json) {
    forall route | Follow(v, route).Some? ::
      && Follow(r, route).Some? && HasItsTitle(pascal, v, r, base, route)
      && SameButTitles(Follow(v, route).value, Follow(r, route).value)
  }

  lemma AnnotatedEverywhere(pascal: Pascal, v: Json, base: Option<string>)
    ensures IsAnnotated(pascal, v, base, Annotate(pascal, v, base, None))
  {
    hide Annotate, Follow, HasItsTitle, SameButTitles;
    forall route | Follow(v, route).Some?
      ensures var r := Annotate(pascal, v, base, None);
              && Follow(r, route).Some? && HasItsTitle(pascal, v, r, base, route)
              && SameButTitles(Follow(v, route).value, Follow(r, route).value)
    {
      EverySchemaGetsItsTitle(pascal, v, base, route);
      NothingElseChanges(pascal, v, base, route);
    }
  }
}
