/** The canonical form used to compare generated schemas with the vendored
    ones (code-rs/app-server-protocol/src/schema_fixtures.rs). */
module CanonicalJson {
  import opened Text
  import opened Json
  import opened Sorting

  // ----------------------------------------------------------------- source

  /** `schema_array_item_sort_key`. */
  function SortKey(item: Json): Option<string> {
    match item
    case Null => Some("null")
    case Bool(b) => Some("b:" + if b then "true" else "false")
    case Num(text) => Some("n:" + text)
    case Str(s) => Some("s:" + s)
    case Obj(es) =>
      var reference, title := Get(es, "$ref"), Get(es, "title");
      if reference.Some? && reference.value.Str? then Some("ref:" + reference.value.s)
      else if title.Some? && title.value.Str? then Some("title:" + title.value.s)
      else None
    case Arr(_) => None
  }

  predicate AllSortable(items: seq<Json>) {
    forall x | x in items :: SortKey(x).Some?
  }

  /** Orders items by sort key, then by text.  Items without a key are never
      compared; they come first here. */
  predicate ItemLe(x: Json, y: Json) {
    if SortKey(x).None? || SortKey(y).None? then SortKey(x).None?
    else
      var k, l := SortKey(x).value, SortKey(y).value;
      if k == l then StringLe(Serialize(x), Serialize(y)) else StringLe(k, l)
  }

  predicate KeyLe(e: Entry, f: Entry) {
    StringLe(e.key, f.key)
  }

  function SortedIfSortable(items: seq<Json>): seq<Json> {
    if AllSortable(items) then Sort(ItemLe, items) else items
  }

  /** The canonical form of a value. */
  function Canon(v: Json): Json {
    match v
    case Arr(items) => Arr(SortedIfSortable(CanonItems(items)))
    case Obj(es) => Obj(Sort(KeyLe, CanonEntries(es)))
    case _ => v
  }

  function CanonItems(items: seq<Json>): (r: seq<Json>)
    ensures |r| == |items| && forall i | 0 <= i < |items| :: r[i] == Canon(items[i])
  {
    seq(|items|, i requires 0 <= i < |items| => Canon(items[i]))
  }

  function CanonEntries(es: seq<Entry>): (r: seq<Entry>)
    ensures |r| == |es| && forall i | 0 <= i < |es| :: r[i] == Entry(es[i].key, Canon(es[i].value))
  {
    seq(|es|, i requires 0 <= i < |es| => Entry(es[i].key, Canon(es[i].value)))
  }

  function CanonEntry(e: Entry): Entry {
    Entry(e.key, Canon(e.value))
  }

  lemma CanonMaps(items: seq<Json>, es: seq<Entry>)
    ensures CanonItems(items) == Map(Canon, items)
    ensures CanonEntries(es) == Map(CanonEntry, es)
  {
  }

  // ------------------------------------------------------------ the program

  /** An item with its sort key and its text. */
  datatype Keyed = Keyed(item: Json, key: string, stable: string)

  predicate KeyedLe(x: Keyed, y: Keyed) {
    if x.key == y.key then StringLe(x.stable, y.stable) else StringLe(x.key, y.key)
  }

  function ItemOf(x: Keyed): Json {
    x.item
  }

  method CanonicalizeJson(value: Json) returns (canonical: Json)
    requires WellFormed(value)
    ensures canonical == Canon(value)
    decreases value, 1
  {
    hide Sort, Canon, SortKey, Serialize;
    match value
    case Arr(items) =>
      canonical := CanonicalizeArray(value);
    case Obj(es) =>
      var entries := Sort(KeyLe, es);
      SortReorders(KeyLe, es);
      var sorted: seq<Entry> := [];
      for i := 0 to |entries|
        invariant |sorted| == i && forall j | 0 <= j < i :: sorted[j] == CanonEntry(entries[j])
      {
        assert entries[i] in es;
        var child := CanonicalizeJson(entries[i].value);
        sorted := sorted + [Entry(entries[i].key, child)];
      }
      assert sorted == Map(CanonEntry, entries);
      CanonOfObject(es);
      canonical := Obj(sorted);
    case _ =>
      ScalarIsCanonical(value);
      canonical := value;
  }

  lemma CanonOfObject(es: seq<Entry>)
    ensures Canon(Obj(es)) == Obj(Map(CanonEntry, Sort(KeyLe, es)))
  {
    hide Sort;
    SortMaps(CanonEntry, KeyLe, KeyLe, es);
    CanonMaps([], es);
  }

  lemma ScalarIsCanonical(v: Json)
    requires !v.Arr? && !v.Obj?
    ensures Canon(v) == v
  {
  }

  method CanonicalizeArray(value: Json) returns (canonical: Json)
    requires value.Arr? && WellFormed(value)
    ensures canonical == Canon(value)
    decreases value, 0
  {
    hide SortKey, Serialize;
    var items: seq<Json> := [];
    for i := 0 to |value.items|
      invariant |items| == i && forall j | 0 <= j < i :: items[j] == Canon(value.items[j])
    {
      var item := CanonicalizeJson(value.items[i]);
      items := items + [item];
    }
    assert items == CanonItems(value.items);
    var sortable: seq<Keyed> := [];
    for i := 0 to |items|
      invariant |sortable| == i
      invariant forall j | 0 <= j < i ::
                  SortKey(items[j]).Some?
                  && sortable[j] == Keyed(items[j], SortKey(items[j]).value, Serialize(items[j]))
    {
      var key := SortKey(items[i]);
      if key.None? {
        assert !AllSortable(items);
        return Arr(items);
      }
      sortable := sortable + [Keyed(items[i], key.value, Serialize(items[i]))];
    }
    assert Map(ItemOf, sortable) == items;
    SortMaps(ItemOf, KeyedLe, ItemLe, sortable);
    canonical := Arr(Map(ItemOf, Sort(KeyedLe, sortable)));
  }

  // ------------------------------------------------------------ equivalence

  /** The object holds a string under `key`. */
  ghost predicate HasText(es: seq<Entry>, key: string) {
    exists e :: e in es && e.key == key && e.value.Str?
  }

  /** The items of arrays whose order does not count: scalars, and objects with a
      reference or a title. */
  ghost predicate IsComparable(item: Json) {
    match item
    case Arr(_) => false
    case Obj(es) => HasText(es, "$ref") || HasText(es, "title")
    case _ => true
  }

  ghost predicate AreComparable(items: seq<Json>) {
    forall x | x in items :: IsComparable(x)
  }

  lemma TextIsFound(es: seq<Entry>, key: string)
    requires DistinctKeys(es)
    ensures HasText(es, key) <==> Get(es, key).Some? && Get(es, key).value.Str?
  {
    if e :| e in es && e.key == key && e.value.Str? {
      GetIsUnique(es, e);
    }
  }

  lemma SortableIffComparable(items: seq<Json>)
    requires forall x | x in items :: WellFormed(x)
    ensures AllSortable(items) <==> AreComparable(items)
  {
    forall x | x in items
      ensures SortKey(x).Some? <==> IsComparable(x)
    {
      if x.Obj? {
        TextIsFound(x.entries, "$ref");
        TextIsFound(x.entries, "title");
      }
    }
    hide SortKey, IsComparable;
  }

  /** `a` and `b` differ only in the order of object keys and in the order of
      arrays of comparable items, at any depth. */
  ghost predicate Equiv(a: Json, b: Json)
    decreases a
  {
    match a
    case Arr(xs) =>
      b.Arr? && |xs| == |b.items|
      && exists ys ::
           && (if AreComparable(xs) then Reorders(ys, b.items) else ys == b.items)
           && |ys| == |xs| && forall i | 0 <= i < |xs| :: Equiv(xs[i], ys[i])
    case Obj(es) =>
      b.Obj? && |es| == |b.entries|
      && exists fs: seq<Entry> ::
           && Reorders(fs, b.entries)
           && |fs| == |es| && forall i | 0 <= i < |es| :: es[i].key == fs[i].key && Equiv(es[i].value, fs[i].value)
    case _ => a == b
  }

  // ------------------------------------------------------------- the orders

  lemma ItemLeIsOrder()
    ensures IsOrder(ItemLe)
  {
    forall x, y
      ensures ItemLe(x, y) || ItemLe(y, x)
    {
      if SortKey(x).Some? && SortKey(y).Some? {
        StringLeTotal(SortKey(x).value, SortKey(y).value);
        StringLeTotal(Serialize(x), Serialize(y));
      }
    }
    forall x, y, z | ItemLe(x, y) && ItemLe(y, z)
      ensures ItemLe(x, z)
    {
      if SortKey(x).Some? {
        var k, l, m := SortKey(x).value, SortKey(y).value, SortKey(z).value;
        if k == l == m {
          StringLeTransitive(Serialize(x), Serialize(y), Serialize(z));
        } else {
          StringLeReflexive(k);
          StringLeReflexive(l);
          StringLeTransitive(k, l, m);
          if k == m {
            StringLeAntisymmetric(k, l);
          }
        }
      }
    }
  }

  lemma StringLeReflexive(a: string)
    ensures StringLe(a, a)
  {
  }

  lemma KeyLeIsOrder()
    ensures IsOrder(KeyLe)
  {
    forall e: Entry, f: Entry
      ensures KeyLe(e, f) || KeyLe(f, e)
    {
      StringLeTotal(e.key, f.key);
    }
    forall e: Entry, f: Entry, g: Entry | KeyLe(e, f) && KeyLe(f, g)
      ensures KeyLe(e, g)
    {
      StringLeTransitive(e.key, f.key, g.key);
    }
  }

  lemma ItemLeAntisymmetric(items: seq<Json>)
    requires AllSortable(items) && forall x | x in items :: WellFormed(x)
    ensures IsAntisymmetricOn(ItemLe, items)
  {
    forall x, y | x in items && y in items && ItemLe(x, y) && ItemLe(y, x)
      ensures x == y
    {
      if SortKey(x) != SortKey(y) {
        StringLeAntisymmetric(SortKey(x).value, SortKey(y).value);
        assert false;
      }
      StringLeAntisymmetric(Serialize(x), Serialize(y));
      SerializeInjective(x, y);
    }
  }

  lemma KeyLeAntisymmetric(es: seq<Entry>)
    requires DistinctKeys(es)
    ensures IsAntisymmetricOn(KeyLe, es)
  {
    forall e, f | e in es && f in es && KeyLe(e, f) && KeyLe(f, e)
      ensures e == f
    {
      StringLeAntisymmetric(e.key, f.key);
      GetIsUnique(es, e);
      GetIsUnique(es, f);
    }
  }

  // --------------------------------------------------- what canonicalising keeps

  lemma {:induction false} InsertKeepsDistinct(e: Entry, es: seq<Entry>)
    requires DistinctKeys(es) && forall f | f in es :: f.key != e.key
    ensures DistinctKeys(Insert(KeyLe, e, es))
  {
    if es != [] && !KeyLe(e, es[0]) {
      InsertKeepsDistinct(e, es[1..]);
      InsertReorders(KeyLe, e, es[1..]);
      var inserted := Insert(KeyLe, e, es[1..]);
      ReordersSameMembers(inserted, [e] + es[1..]);
      assert forall f | f in inserted :: f.key != es[0].key;
    }
  }

  lemma {:induction false} SortKeepsDistinct(es: seq<Entry>)
    requires DistinctKeys(es)
    ensures DistinctKeys(Sort(KeyLe, es))
  {
    if es != [] {
      SortKeepsDistinct(es[1..]);
      SortReorders(KeyLe, es[1..]);
      assert forall f | f in es[1..] :: f.key != es[0].key;
      InsertKeepsDistinct(es[0], Sort(KeyLe, es[1..]));
    }
  }

  /** Looking a key up in a canonical object finds the canonical child. */
  lemma GetInCanon(es: seq<Entry>, key: string)
    requires DistinctKeys(es)
    ensures var r := Get(Sort(KeyLe, CanonEntries(es)), key);
            if Get(es, key).None? then r == None else r == Some(Canon(Get(es, key).value))
  {
    var cs := CanonEntries(es);
    SortReorders(KeyLe, cs);
    if Get(es, key).Some? {
      var e := Entry(key, Get(es, key).value);
      var i :| 0 <= i < |es| && es[i] == e;
      assert cs[i] == Entry(key, Canon(e.value));
      SortKeepsDistinct(cs);
      GetIsUnique(Sort(KeyLe, cs), cs[i]);
    } else {
      forall f | f in Sort(KeyLe, cs)
        ensures f.key != key
      {
        var i :| 0 <= i < |cs| && cs[i] == f;
        assert es[i] in es;
      }
    }
  }

  /** The sort key of an item is that of its canonical form, so sorting after
      canonicalising the children is sorting by the original keys. */
  lemma SortKeyIsStable(v: Json)
    requires WellFormed(v)
    ensures SortKey(Canon(v)) == SortKey(v)
  {
    if v.Obj? {
      StringInCanon(v.entries, "$ref");
      StringInCanon(v.entries, "title");
      hide Get, Sort, CanonEntries;
    }
  }

  /** A string under `key` is the same string in the canonical object. */
  lemma StringInCanon(es: seq<Entry>, key: string)
    requires DistinctKeys(es)
    ensures var before, after := Get(es, key), Get(Sort(KeyLe, CanonEntries(es)), key);
            && (before.Some? && before.value.Str? <==> after.Some? && after.value.Str?)
            && (before.Some? && before.value.Str? ==> after == before)
  {
    hide Get, Sort, CanonEntries;
    GetInCanon(es, key);
  }

  lemma SortableTogether(items: seq<Json>)
    requires forall x | x in items :: WellFormed(x)
    ensures AllSortable(CanonItems(items)) <==> AllSortable(items)
  {
    var cs := CanonItems(items);
    forall i | 0 <= i < |items|
      ensures SortKey(cs[i]) == SortKey(items[i])
    {
      SortKeyIsStable(items[i]);
    }
    if AllSortable(items) {
      assert forall i | 0 <= i < |cs| :: SortKey(cs[i]).Some?;
    }
    if AllSortable(cs) {
      assert forall i | 0 <= i < |cs| :: SortKey(cs[i]).Some?;
    }
  }

  /** Canonicalising an array keeps the multiset of its canonical elements;
      canonicalising an object keeps its keys. */
  lemma CanonKeepsElements(v: Json)
    ensures v.Arr? ==> Canon(v).Arr? && Reorders(Canon(v).items, CanonItems(v.items))
    ensures v.Obj? ==> Canon(v).Obj? && Reorders(Canon(v).entries, CanonEntries(v.entries))
  {
    if v.Arr? {
      SortReorders(ItemLe, CanonItems(v.items));
    } else if v.Obj? {
      SortReorders(KeyLe, CanonEntries(v.entries));
    }
  }

  lemma {:induction false} CanonIsWellFormed(v: Json)
    requires WellFormed(v)
    ensures WellFormed(Canon(v))
  {
    CanonKeepsElements(v);
    if v.Arr? {
      var cs := CanonItems(v.items);
      ReordersSameMembers(Canon(v).items, cs);
      forall x | x in cs
        ensures WellFormed(x)
      {
        var i :| 0 <= i < |cs| && cs[i] == x;
        CanonIsWellFormed(v.items[i]);
      }
    } else if v.Obj? {
      var cs := CanonEntries(v.entries);
      ReordersSameMembers(Canon(v).entries, cs);
      SortKeepsDistinct(cs);
      forall e | e in cs
        ensures WellFormed(e.value)
      {
        var i :| 0 <= i < |cs| && cs[i] == e;
        CanonIsWellFormed(v.entries[i].value);
      }
    }
  }

  lemma CanonItemsWellFormed(items: seq<Json>)
    requires forall x | x in items :: WellFormed(x)
    ensures forall x | x in CanonItems(items) :: WellFormed(x)
  {
    var cs := CanonItems(items);
    forall x | x in cs
      ensures WellFormed(x)
    {
      var i :| 0 <= i < |cs| && cs[i] == x;
      CanonIsWellFormed(items[i]);
    }
  }

  // ---------------------------------------------------------------- theorems

  /** What the theorem below says about one pair of children. */
  ghost predicate Decides(x: Json, y: Json) {
    Canon(x) == Canon(y) <==> Equiv(x, y)
  }

  /** `ys` in some order is, child by child, equivalent to `xs`. */
  ghost predicate Matches(xs: seq<Json>, ys: seq<Json>) {
    exists zs :: Reorders(zs, ys) && |zs| == |xs| && forall i | 0 <= i < |xs| :: Equiv(xs[i], zs[i])
  }

  ghost predicate EntriesMatch(es: seq<Entry>, fs: seq<Entry>) {
    exists gs :: Reorders(gs, fs) && EntriesAgree(es, gs)
  }

  lemma ItemsDecide(xs: seq<Json>, ys: seq<Json>)
    requires forall y | y in ys :: WellFormed(y)
    requires forall x, y | x in xs && WellFormed(y) :: Decides(x, y)
    ensures Reorders(CanonItems(xs), CanonItems(ys)) <==> Matches(xs, ys)
  {
    hide Canon, Equiv, WellFormed;
    CanonMaps(xs, []);
    CanonMaps(ys, []);
    if Reorders(CanonItems(xs), CanonItems(ys)) {
      var zs := Rearrange(Canon, ys, CanonItems(xs));
      ReordersSameMembers(zs, ys);
      forall i | 0 <= i < |xs|
        ensures Equiv(xs[i], zs[i])
      {
        assert Map(Canon, zs)[i] == CanonItems(xs)[i];
        assert zs[i] in ys;
        assert Decides(xs[i], zs[i]);
      }
    }
    if Matches(xs, ys) {
      var zs :| Reorders(zs, ys) && |zs| == |xs| && forall i | 0 <= i < |xs| :: Equiv(xs[i], zs[i]);
      ReordersSameMembers(zs, ys);
      forall i | 0 <= i < |xs|
        ensures CanonItems(xs)[i] == Map(Canon, zs)[i]
      {
        assert zs[i] in ys;
        assert Decides(xs[i], zs[i]);
      }
      assert CanonItems(xs) == Map(Canon, zs);
      MapReorders(Canon, zs, ys);
    }
  }

  ghost predicate EntriesAgree(es: seq<Entry>, gs: seq<Entry>) {
    |gs| == |es| && forall i | 0 <= i < |es| :: es[i].key == gs[i].key && Equiv(es[i].value, gs[i].value)
  }

  lemma EntriesAgreeIffImagesEqual(es: seq<Entry>, gs: seq<Entry>)
    requires forall g | g in gs :: WellFormed(g.value)
    requires forall e, y | e in es && WellFormed(y) :: Decides(e.value, y)
    ensures CanonEntries(es) == CanonEntries(gs) <==> EntriesAgree(es, gs)
  {
  }

  lemma EntriesDecide(es: seq<Entry>, fs: seq<Entry>)
    requires forall f | f in fs :: WellFormed(f.value)
    requires forall e, y | e in es && WellFormed(y) :: Decides(e.value, y)
    ensures Reorders(CanonEntries(es), CanonEntries(fs)) <==> EntriesMatch(es, fs)
  {
    hide Canon, Equiv, WellFormed, Decides, EntriesAgree;
    CanonMaps([], es);
    CanonMaps([], fs);
    if Reorders(CanonEntries(es), CanonEntries(fs)) {
      var gs := Rearrange(CanonEntry, fs, CanonEntries(es));
      ReordersSameMembers(gs, fs);
      CanonMaps([], gs);
      EntriesAgreeIffImagesEqual(es, gs);
    }
    if EntriesMatch(es, fs) {
      var gs :| Reorders(gs, fs) && EntriesAgree(es, gs);
      ReordersSameMembers(gs, fs);
      CanonMaps([], gs);
      EntriesAgreeIffImagesEqual(es, gs);
      MapReorders(CanonEntry, gs, fs);
    }
  }

  /** When `xs` are sortable, sorting decides whether the canonical items are
      the same up to order. */
  lemma SortedItemsDecide(cs: seq<Json>, ds: seq<Json>)
    requires AllSortable(cs) && forall x | x in cs :: WellFormed(x)
    ensures SortedIfSortable(cs) == SortedIfSortable(ds) <==> Reorders(cs, ds)
  {
    ItemLeIsOrder();
    ItemLeAntisymmetric(cs);
    SortDecidesReordering(ItemLe, cs, ds);
    SortReorders(ItemLe, cs);
    if Reorders(cs, ds) {
      ReordersSameMembers(cs, ds);
    }
  }

  lemma UnsortableItemsDecide(cs: seq<Json>, ds: seq<Json>)
    requires !AllSortable(cs)
    ensures SortedIfSortable(cs) == SortedIfSortable(ds) <==> cs == ds
  {
    SortReorders(ItemLe, ds);
  }

  lemma ArraysDecide(a: Json, b: Json)
    requires WellFormed(a) && WellFormed(b) && a.Arr? && b.Arr?
    requires forall x, y | x in a.items && WellFormed(y) :: Decides(x, y)
    ensures Decides(a, b)
  {
    hide SortKey, Serialize, ItemLe, Sort, IsComparable;
    var xs, ys := a.items, b.items;
    var cs, ds := CanonItems(xs), CanonItems(ys);
    SortableTogether(xs);
    SortableIffComparable(xs);
    hide AllSortable, AreComparable;
    if AllSortable(xs) {
      CanonItemsWellFormed(xs);
      SortedItemsDecide(cs, ds);
      ItemsDecide(xs, ys);
      if Reorders(cs, ds) {
        ReordersSameMembers(cs, ds);
      }
    } else {
      UnsortableItemsDecide(cs, ds);
      if |xs| == |ys| {
        forall i | 0 <= i < |xs|
          ensures cs[i] == ds[i] <==> Equiv(xs[i], ys[i])
        {
          assert Decides(xs[i], ys[i]);
        }
      }
    }
  }

  lemma ObjectsDecide(a: Json, b: Json)
    requires WellFormed(a) && WellFormed(b) && a.Obj? && b.Obj?
    requires forall e, y | e in a.entries && WellFormed(y) :: Decides(e.value, y)
    ensures Decides(a, b)
  {
    var cs, ds := CanonEntries(a.entries), CanonEntries(b.entries);
    KeyLeIsOrder();
    KeyLeAntisymmetric(cs);
    SortDecidesReordering(KeyLe, cs, ds);
    EntriesDecide(a.entries, b.entries);
    if Reorders(cs, ds) {
      ReordersSameMembers(cs, ds);
    }
  }

  /** The canonical form decides equivalence. */
  lemma {:induction false} CanonDecidesEquivalence(a: Json, b: Json)
    requires WellFormed(a) && WellFormed(b)
    ensures Canon(a) == Canon(b) <==> Equiv(a, b)
    decreases a
  {
    if a.Arr? && b.Arr? {
      forall x, y | x in a.items && WellFormed(y)
        ensures Decides(x, y)
      {
        CanonDecidesEquivalence(x, y);
      }
      ArraysDecide(a, b);
    } else if a.Obj? && b.Obj? {
      forall e, y | e in a.entries && WellFormed(y)
        ensures Decides(e.value, y)
      {
        CanonDecidesEquivalence(e.value, y);
      }
      ObjectsDecide(a, b);
    }
  }

  /** Hence being equal up to order is an equivalence. */
  lemma EquivIsAnEquivalence(a: Json, b: Json, c: Json)
    requires WellFormed(a) && WellFormed(b) && WellFormed(c)
    ensures Equiv(a, a)
    ensures Equiv(a, b) ==> Equiv(b, a)
    ensures Equiv(a, b) && Equiv(b, c) ==> Equiv(a, c)
  {
    CanonDecidesEquivalence(a, a);
    CanonDecidesEquivalence(a, b);
    CanonDecidesEquivalence(b, a);
    CanonDecidesEquivalence(b, c);
    CanonDecidesEquivalence(a, c);
  }

  lemma SameKeysBothWays(cs: seq<Json>, ds: seq<Json>)
    requires Reorders(cs, ds)
    ensures AllSortable(cs) <==> AllSortable(ds)
  {
    ReordersSameMembers(cs, ds);
  }

  lemma {:induction false} CanonIsIdempotent(v: Json)
    requires WellFormed(v)
    ensures Canon(Canon(v)) == Canon(v)
  {
    CanonKeepsElements(v);
    if v.Arr? {
      var cs, rs := CanonItems(v.items), Canon(v).items;
      ReordersSameMembers(rs, cs);
      CanonItemsWellFormed(v.items);
      forall i | 0 <= i < |rs|
        ensures Canon(rs[i]) == rs[i]
      {
        assert rs[i] in cs;
        var j :| 0 <= j < |cs| && cs[j] == rs[i];
        CanonIsIdempotent(v.items[j]);
      }
      assert CanonItems(rs) == rs;
      SameKeysBothWays(rs, cs);
      if AllSortable(cs) {
        ItemLeIsOrder();
        ItemLeAntisymmetric(rs);
        SortSorts(ItemLe, cs);
        SortOfSorted(ItemLe, rs);
      }
    } else if v.Obj? {
      var cs, rs := CanonEntries(v.entries), Canon(v).entries;
      ReordersSameMembers(rs, cs);
      forall i | 0 <= i < |rs|
        ensures CanonEntries(rs)[i] == rs[i]
      {
        assert rs[i] in cs;
        var j :| 0 <= j < |cs| && cs[j] == rs[i];
        CanonIsIdempotent(v.entries[j].value);
      }
      assert CanonEntries(rs) == rs;
      KeyLeIsOrder();
      SortKeepsDistinct(cs);
      KeyLeAntisymmetric(rs);
      SortSorts(KeyLe, cs);
      SortOfSorted(KeyLe, rs);
    }
  }

  /** Two schema files have the same text after canonicalising exactly when they
      are equal up to those orders. */
  lemma SameTextIffEquivalent(a: Json, b: Json)
    requires WellFormed(a) && WellFormed(b)
    ensures Serialize(Canon(a)) == Serialize(Canon(b)) <==> Equiv(a, b)
  {
    CanonIsWellFormed(a);
    CanonIsWellFormed(b);
    SerializeInjective(Canon(a), Canon(b));
    CanonDecidesEquivalence(a, b);
  }
}
