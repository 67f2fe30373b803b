/** JSON values as `serde_json` holds them: an object is a list of entries in
    the order they are written, with distinct keys, and a number is kept as
    its text.  `Serialize` is the compact text of `serde_json::to_string`. */
module Json {
  import opened Text

  datatype Json =
    | Null
    | Bool(b: bool)
    | Num(text: string)
    | Str(s: string)
    | Arr(items: seq<Json>)
    | Obj(entries: seq<Entry>)

  datatype Entry = Entry(key: string, value: Json)

  predicate IsNumberChar(c: char) {
    IsDigit(c) || c == '-' || c == '+' || c == '.' || c == 'e' || c == 'E'
  }

  predicate IsNumberText(s: string) {
    s != "" && (IsDigit(s[0]) || s[0] == '-') && forall i | 0 <= i < |s| :: IsNumberChar(s[i])
  }

  ghost predicate DistinctKeys(es: seq<Entry>) {
    forall i, j | 0 <= i < j < |es| :: es[i].key != es[j].key
  }

  ghost predicate WellFormed(v: Json) {
    match v
    case Num(text) => IsNumberText(text)
    case Arr(items) => forall x | x in items :: WellFormed(x)
    case Obj(es) => DistinctKeys(es) && forall e | e in es :: WellFormed(e.value)
    case _ => true
  }

  /** `map.get(key)`. */
  function Get(es: seq<Entry>, key: string): (r: Option<Json>)
    ensures r.None? <==> forall e | e in es :: e.key != key
    ensures r.Some? ==> Entry(key, r.value) in es
  {
    if es == [] then None
    else if es[0].key == key then Some(es[0].value)
    else Get(es[1..], key)
  }

  lemma GetIsUnique(es: seq<Entry>, e: Entry)
    requires DistinctKeys(es) && e in es
    ensures Get(es, e.key) == Some(e.value)
  {
  }

  // ------------------------------------------------------------- serialising

  const HEX := "0123456789abcdef"

  function Escape(c: char): (r: string)
    ensures r != "" && r[0] != '"'
  {
    if c == '"' then "\\\""
    else if c == '\\' then "\\\\"
    else if c == '\U{0008}' then "\\b"
    else if c == '\U{000C}' then "\\f"
    else if c == '\n' then "\\n"
    else if c == '\r' then "\\r"
    else if c == '\t' then "\\t"
    else if c < ' ' then "\\u00" + [HEX[c as int / 16], HEX[c as int % 16]]
    else [c]
  }

  /** The rest of a string and its closing quote, followed by `x`. */
  function WriteString(s: string, x: string): string {
    if s == "" then ['"'] + x else Escape(s[0]) + WriteString(s[1..], x)
  }

  /** The text of `v` followed by `x`. */
  function Write(v: Json, x: string): string
    decreases v, 0
  {
    match v
    case Null => "null" + x
    case Bool(b) => (if b then "true" else "false") + x
    case Num(text) => text + x
    case Str(s) => ['"'] + WriteString(s, x)
    case Arr(items) => ['['] + WriteItems(items, x)
    case Obj(es) => ['{'] + WriteEntries(es, x)
  }

  /** What follows the first of `items`, down to the closing bracket. */
  function AfterItem(items: seq<Json>, x: string): string
    requires items != []
    decreases items, 0
  {
    if |items| == 1 then [']'] + x else [','] + WriteItems(items[1..], x)
  }

  function WriteItems(items: seq<Json>, x: string): string
    decreases items, 1
  {
    if items == [] then [']'] + x else Write(items[0], AfterItem(items, x))
  }

  function AfterEntry(es: seq<Entry>, x: string): string
    requires es != []
    decreases es, 0
  {
    if |es| == 1 then ['}'] + x else [','] + WriteEntries(es[1..], x)
  }

  function WriteEntries(es: seq<Entry>, x: string): string
    decreases es, 1
  {
    if es == [] then ['}'] + x
    else ['"'] + WriteString(es[0].key, [':'] + Write(es[0].value, AfterEntry(es, x)))
  }

  function Serialize(v: Json): string {
    Write(v, "")
  }

  // -------------------------------------------------- the text is unambiguous

  lemma HexInjective(m: nat, n: nat)
    requires m < 16 && n < 16 && HEX[m] == HEX[n]
    ensures m == n
  {
  }

  lemma EscapeIsPrefixFree(c: char, x: string, d: char, y: string)
    requires Escape(c) + x == Escape(d) + y
    ensures c == d && x == y
  {
    var t := Escape(c) + x;
    assert t[0] == Escape(c)[0] == Escape(d)[0];
    if t[0] == '\\' {
      assert t[1] == Escape(c)[1] == Escape(d)[1];
      if t[1] == 'u' {
        assert t[4] == Escape(c)[4] == Escape(d)[4];
        assert t[5] == Escape(c)[5] == Escape(d)[5];
        HexInjective(c as int / 16, d as int / 16);
        HexInjective(c as int % 16, d as int % 16);
        assert c as int == d as int;
      }
    }
    assert c == d;
    assert x == t[|Escape(c)|..] && y == t[|Escape(d)|..];
  }

  lemma {:induction false} StringIsPrefixFree(a: string, x: string, b: string, y: string)
    requires WriteString(a, x) == WriteString(b, y)
    ensures a == b && x == y
    decreases |a|
  {
    var t := WriteString(a, x);
    assert a == "" <==> t[0] == '"';
    assert b == "" <==> t[0] == '"';
    if a == "" {
      assert x == t[1..] && y == t[1..];
    } else {
      EscapeIsPrefixFree(a[0], WriteString(a[1..], x), b[0], WriteString(b[1..], y));
      StringIsPrefixFree(a[1..], x, b[1..], y);
      assert a == [a[0]] + a[1..] && b == [b[0]] + b[1..];
    }
  }

  /** What may follow a value inside a document. */
  predicate IsStop(x: string) {
    x == "" || !IsNumberChar(x[0])
  }

  ghost predicate AllNumberChars(s: string) {
    forall i | 0 <= i < |s| :: IsNumberChar(s[i])
  }

  lemma {:induction false} NumberIsPrefixFree(a: string, x: string, b: string, y: string)
    requires AllNumberChars(a) && AllNumberChars(b) && IsStop(x) && IsStop(y) && a + x == b + y
    ensures a == b && x == y
    decreases |a|
  {
    var t := a + x;
    assert a == "" ==> t == x;
    assert b == "" ==> t == y;
    if a != "" && b != "" {
      assert t[0] == a[0] == b[0];
      assert t[1..] == a[1..] + x == b[1..] + y;
      NumberIsPrefixFree(a[1..], x, b[1..], y);
      assert a == [a[0]] + a[1..] && b == [b[0]] + b[1..];
    }
  }

  function Tag(v: Json): char {
    match v
    case Null => 'n'
    case Bool(b) => if b then 't' else 'f'
    case Num(_) => '0'
    case Str(_) => '"'
    case Arr(_) => '['
    case Obj(_) => '{'
  }

  /** The first character tells the kind of a value. */
  lemma FirstCharTells(v: Json, x: string)
    requires WellFormed(v)
    ensures var t := Write(v, x);
            t != "" && Tag(v) == (if IsNumberChar(t[0]) then '0' else t[0]) && t[0] != ']'
  {
  }

  lemma {:induction false} WriteIsPrefixFree(a: Json, x: string, b: Json, y: string)
    requires WellFormed(a) && WellFormed(b) && IsStop(x) && IsStop(y)
    requires Write(a, x) == Write(b, y)
    ensures a == b && x == y
    decreases a, 0
  {
    FirstCharTells(a, x);
    FirstCharTells(b, y);
    var t := Write(a, x);
    if a.Null? || a.Bool? {
      assert t == Serialize(a) + x == Serialize(a) + y;
      assert x == t[|Serialize(a)|..] && y == t[|Serialize(a)|..];
    } else if a.Num? {
      NumberIsPrefixFree(a.text, x, b.text, y);
    } else if a.Str? {
      assert t[1..] == WriteString(a.s, x) == WriteString(b.s, y);
      StringIsPrefixFree(a.s, x, b.s, y);
    } else if a.Arr? {
      assert t[1..] == WriteItems(a.items, x) == WriteItems(b.items, y);
      ItemsArePrefixFree(a.items, x, b.items, y);
    } else {
      assert t[1..] == WriteEntries(a.entries, x) == WriteEntries(b.entries, y);
      EntriesArePrefixFree(a.entries, x, b.entries, y);
    }
  }

  lemma {:induction false} ItemsArePrefixFree(xs: seq<Json>, x: string, ys: seq<Json>, y: string)
    requires (forall v | v in xs :: WellFormed(v)) && forall v | v in ys :: WellFormed(v)
    requires WriteItems(xs, x) == WriteItems(ys, y)
    ensures xs == ys && x == y
    decreases xs, 1
  {
    var t := WriteItems(xs, x);
    if xs != [] {
      FirstCharTells(xs[0], AfterItem(xs, x));
    }
    if ys != [] {
      FirstCharTells(ys[0], AfterItem(ys, y));
    }
    assert xs == [] <==> t[0] == ']';
    assert ys == [] <==> t[0] == ']';
    if xs == [] {
      assert x == t[1..] && y == t[1..];
    } else {
      var afterX, afterY := AfterItem(xs, x), AfterItem(ys, y);
      WriteIsPrefixFree(xs[0], afterX, ys[0], afterY);
      assert |xs| == 1 <==> afterX[0] == ']';
      assert |ys| == 1 <==> afterY[0] == ']';
      if |xs| == 1 {
        assert x == afterX[1..] && y == afterY[1..];
      } else {
        assert afterX[1..] == WriteItems(xs[1..], x) && afterY[1..] == WriteItems(ys[1..], y);
        ItemsArePrefixFree(xs[1..], x, ys[1..], y);
      }
      assert xs == [xs[0]] + xs[1..] && ys == [ys[0]] + ys[1..];
    }
  }

  lemma {:induction false} EntriesArePrefixFree(es: seq<Entry>, x: string, fs: seq<Entry>, y: string)
    requires (forall e | e in es :: WellFormed(e.value)) && forall e | e in fs :: WellFormed(e.value)
    requires WriteEntries(es, x) == WriteEntries(fs, y)
    ensures es == fs && x == y
    decreases es, 1
  {
    var t := WriteEntries(es, x);
    assert es == [] <==> t[0] == '}';
    assert fs == [] <==> t[0] == '}';
    if es == [] {
      assert x == t[1..] && y == t[1..];
    } else {
      FirstEntriesAgree(es, x, fs, y);
      var afterX, afterY := AfterEntry(es, x), AfterEntry(fs, y);
      WriteIsPrefixFree(es[0].value, afterX, fs[0].value, afterY);
      assert |es| == 1 <==> afterX[0] == '}';
      assert |fs| == 1 <==> afterY[0] == '}';
      if |es| == 1 {
        assert x == afterX[1..] && y == afterY[1..];
      } else {
        assert afterX[1..] == WriteEntries(es[1..], x) && afterY[1..] == WriteEntries(fs[1..], y);
        EntriesArePrefixFree(es[1..], x, fs[1..], y);
      }
      assert es == [es[0]] + es[1..] && fs == [fs[0]] + fs[1..];
    }
  }

  lemma FirstEntriesAgree(es: seq<Entry>, x: string, fs: seq<Entry>, y: string)
    requires es != [] && fs != [] && WriteEntries(es, x) == WriteEntries(fs, y)
    ensures es[0].key == fs[0].key
    ensures Write(es[0].value, AfterEntry(es, x)) == Write(fs[0].value, AfterEntry(fs, y))
  {
    var t := WriteEntries(es, x);
    var restX := [':'] + Write(es[0].value, AfterEntry(es, x));
    var restY := [':'] + Write(fs[0].value, AfterEntry(fs, y));
    assert t[1..] == WriteString(es[0].key, restX) == WriteString(fs[0].key, restY);
    StringIsPrefixFree(es[0].key, restX, fs[0].key, restY);
    assert Write(es[0].value, AfterEntry(es, x)) == restX[1..];
    assert Write(fs[0].value, AfterEntry(fs, y)) == restY[1..];
  }

  /** Different values have different texts. */
  lemma SerializeInjective(a: Json, b: Json)
    requires WellFormed(a) && WellFormed(b)
    ensures Serialize(a) == Serialize(b) <==> a == b
  {
    if Serialize(a) == Serialize(b) {
      WriteIsPrefixFree(a, "", b, "");
    }
  }
}
