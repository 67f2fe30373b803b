/** The order in which a canonical value lists its members: keys ascending, and
    comparable items ascending by kind, by what identifies them and by text
    (code-rs/app-server-protocol/src/schema_fixtures.rs). */
module CanonicalOrder {
  import opened Text
  import opened Json
  import opened Sorting
  import opened CanonicalJson

  /** Before the first difference the texts agree; there `a` ends or has the
      smaller character. */
  ghost predicate Precedes(a: string, b: string) {
    exists k: nat :: DiffersAt(a, b, k)
  }

  ghost predicate DiffersAt(a: string, b: string, k: nat) {
    && k <= |a| && k <= |b| && a[..k] == b[..k]
    && (k == |a| || (k < |b| && a[k] < b[k]))
  }

  lemma {:induction false} StringLePrecedes(a: string, b: string)
    ensures StringLe(a, b) ==> Precedes(a, b)
  {
    if StringLe(a, b) {
      if a == "" || a[0] != b[0] {
        assert DiffersAt(a, b, 0);
      } else {
        StringLePrecedes(a[1..], b[1..]);
        var k: nat :| DiffersAt(a[1..], b[1..], k);
        assert a[..k + 1] == [a[0]] + a[1..][..k] && b[..k + 1] == [b[0]] + b[1..][..k];
        assert DiffersAt(a, b, k + 1);
      }
    }
  }

  // -------------------------------------------------------------------- items

  datatype Label =
    | TruthOf(text: string)
    | NumberOf(text: string)
    | Nothing
    | ReferenceTo(text: string)
    | TextOf(text: string)
    | Titled(text: string)
  {
    /** Booleans, numbers, null, references, strings, titles. */
    function Rank(): nat {
      match this
      case TruthOf(_) => 0
      case NumberOf(_) => 1
      case Nothing => 2
      case ReferenceTo(_) => 3
      case TextOf(_) => 4
      case Titled(_) => 5
    }
  }

  /** What identifies a comparable item: a reference, else a title, or the
      scalar. */
  ghost predicate HasLabel(item: Json, l: Label) {
    match item
    case Null => l.Nothing?
    case Bool(b) => l == TruthOf(if b then "true" else "false")
    case Num(text) => l == NumberOf(text)
    case Str(s) => l == TextOf(s)
    case Obj(es) =>
      || (l.ReferenceTo? && Entry("$ref", Str(l.text)) in es)
      || (l.Titled? && !HasText(es, "$ref") && Entry("title", Str(l.text)) in es)
    case Arr(_) => false
  }

  ghost predicate LabelBefore(l: Label, k: Label) {
    l.Rank() < k.Rank() || (l.Rank() == k.Rank() && !l.Nothing? && !k.Nothing? && Precedes(l.text, k.text))
  }

  /** `x` may stand before `y`. */
  ghost predicate ItemBefore(x: Json, y: Json) {
    exists l, k ::
      && HasLabel(x, l) && HasLabel(y, k)
      && if l == k then Precedes(Serialize(x), Serialize(y)) else LabelBefore(l, k)
  }

  function Marked(l: Label): string {
    match l
    case TruthOf(t) => "b:" + t
    case NumberOf(t) => "n:" + t
    case Nothing => "null"
    case ReferenceTo(t) => "ref:" + t
    case TextOf(t) => "s:" + t
    case Titled(t) => "title:" + t
  }

  lemma KeyIsLabel(x: Json) returns (l: Label)
    requires WellFormed(x) && IsComparable(x)
    ensures HasLabel(x, l) && SortKey(x) == Some(Marked(l))
  {
    match x
    case Null => l := Nothing;
    case Bool(b) => l := TruthOf(if b then "true" else "false");
    case Num(text) => l := NumberOf(text);
    case Str(s) => l := TextOf(s);
    case Obj(es) =>
      TextIsFound(es, "$ref");
      TextIsFound(es, "title");
      if HasText(es, "$ref") {
        l := ReferenceTo(Get(es, "$ref").value.s);
      } else {
        l := Titled(Get(es, "title").value.s);
      }
  }

  lemma {:induction false} SamePrefix(p: string, a: string, b: string)
    requires StringLe(p + a, p + b)
    ensures StringLe(a, b)
    decreases |p|
  {
    if p == "" {
      assert p + a == a && p + b == b;
    } else {
      assert (p + a)[1..] == p[1..] + a && (p + b)[1..] == p[1..] + b;
      SamePrefix(p[1..], a, b);
    }
  }

  function Mark(l: Label): string {
    match l
    case TruthOf(_) => "b:"
    case NumberOf(_) => "n:"
    case Nothing => "null"
    case ReferenceTo(_) => "ref:"
    case TextOf(_) => "s:"
    case Titled(_) => "title:"
  }

  lemma FirstCharsDecide(a: string, b: string)
    requires |a| > 1 && |b| > 1 && StringLe(a, b)
    ensures a[0] < b[0] || (a[0] == b[0] && a[1] <= b[1])
  {
  }

  lemma MarksAscend(l: Label, k: Label)
    requires StringLe(Marked(l), Marked(k))
    ensures l.Rank() <= k.Rank()
    ensures l.Rank() == k.Rank() && !l.Nothing? ==> Precedes(l.text, k.text)
  {
    var a, b := Marked(l), Marked(k);
    assert a[..2] == Mark(l)[..2] && b[..2] == Mark(k)[..2];
    FirstCharsDecide(a, b);
    assert a[0] == Mark(l)[0] && a[1] == Mark(l)[1] && b[0] == Mark(k)[0] && b[1] == Mark(k)[1];
    if l.Rank() == k.Rank() && !l.Nothing? {
      assert Mark(l) == Mark(k) && a == Mark(l) + l.text && b == Mark(k) + k.text;
      SamePrefix(Mark(l), l.text, k.text);
      StringLePrecedes(l.text, k.text);
    }
  }

  lemma ItemsAscend(x: Json, y: Json)
    requires WellFormed(x) && WellFormed(y) && IsComparable(x) && IsComparable(y) && ItemLe(x, y)
    ensures ItemBefore(x, y)
  {
    hide SortKey, HasLabel, Marked, IsComparable, WellFormed, Precedes, LabelBefore, Serialize, ItemLe, StringLe;
    var l := KeyIsLabel(x);
    var k := KeyIsLabel(y);
    if l == k {
      SameKeyAscends(x, y);
      StringLePrecedes(Serialize(x), Serialize(y));
    } else {
      KeysAscend(x, y, l, k);
    }
  }

  lemma SameKeyAscends(x: Json, y: Json)
    requires SortKey(x).Some? && SortKey(x) == SortKey(y) && ItemLe(x, y)
    ensures StringLe(Serialize(x), Serialize(y))
  {
    hide SortKey, Serialize, StringLe;
  }

  lemma KeysAscend(x: Json, y: Json, l: Label, k: Label)
    requires SortKey(x) == Some(Marked(l)) && SortKey(y) == Some(Marked(k)) && l != k && ItemLe(x, y)
    ensures LabelBefore(l, k)
  {
    StringLeReflexive(Marked(l));
    hide SortKey, Marked, Serialize;
    MarksAscend(l, k);
  }

  // ------------------------------------------------------------------- result

  /** A canonical array lists comparable items in ascending order and any other
      items in the order they had; a canonical object lists its keys in
      ascending order. */
  lemma CanonIsOrdered(v: Json)
    requires WellFormed(v)
    ensures v.Arr? && AreComparable(v.items) ==>
              Canon(v).Arr? && forall i, j | 0 <= i < j < |Canon(v).items| ::
                ItemBefore(Canon(v).items[i], Canon(v).items[j])
    ensures v.Arr? && !AreComparable(v.items) ==>
              Canon(v).Arr? && |Canon(v).items| == |v.items|
              && forall i | 0 <= i < |v.items| :: Canon(v).items[i] == Canon(v.items[i])
    ensures v.Obj? ==>
              Canon(v).Obj? && forall i, j | 0 <= i < j < |Canon(v).entries| ::
                Precedes(Canon(v).entries[i].key, Canon(v).entries[j].key)
                && Canon(v).entries[i].key != Canon(v).entries[j].key
  {
    hide ItemBefore, IsComparable, WellFormed, Precedes, SortKey, CanonEntries, Sort, Canon;
    if v.Arr? {
      CanonItemsOf(v);
      SortableIffComparable(v.items);
      SortableTogether(v.items);
      hide AllSortable, AreComparable;
      if AreComparable(v.items) {
        ArrayIsOrdered(CanonItems(v.items), v.items);
      }
    } else if v.Obj? {
      ObjectIsOrdered(v);
    }
  }

  lemma CanonItemsOf(v: Json)
    requires v.Arr? && WellFormed(v)
    ensures forall x | x in v.items :: WellFormed(x)
    ensures var cs := CanonItems(v.items);
            Canon(v) == Arr(if AllSortable(cs) then Sort(ItemLe, cs) else cs)
  {
  }

  lemma ObjectIsOrdered(v: Json)
    requires v.Obj? && WellFormed(v)
    ensures Canon(v).Obj?
    ensures var rs := Canon(v).entries;
            forall i, j | 0 <= i < j < |rs| :: Precedes(rs[i].key, rs[j].key) && rs[i].key != rs[j].key
  {
    CanonIsWellFormed(v);
    KeyLeIsOrder();
    SortSorts(KeyLe, CanonEntries(v.entries));
    var rs := Canon(v).entries;
    forall i, j | 0 <= i < j < |rs|
      ensures Precedes(rs[i].key, rs[j].key)
    {
      assert KeyLe(rs[i], rs[j]);
      StringLePrecedes(rs[i].key, rs[j].key);
    }
    hide Precedes;
  }

  lemma ArrayIsOrdered(cs: seq<Json>, items: seq<Json>)
    requires (forall x | x in items :: WellFormed(x)) && cs == CanonItems(items) && AllSortable(cs)
    ensures var rs := Sort(ItemLe, cs);
            forall i, j | 0 <= i < j < |rs| :: ItemBefore(rs[i], rs[j])
  {
    var rs := Sort(ItemLe, cs);
    CanonItemsWellFormed(items);
    SortableIffComparable(cs);
    ItemLeIsOrder();
    SortSorts(ItemLe, cs);
    SortReorders(ItemLe, cs);
    hide ItemLe, ItemBefore, IsComparable, CanonItems, AllSortable;
    forall i, j | 0 <= i < j < |rs|
      ensures ItemBefore(rs[i], rs[j])
    {
      assert rs[i] in cs && rs[j] in cs;
      ItemsAscend(rs[i], rs[j]);
    }
  }
}
