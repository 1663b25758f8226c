// JSON values and their canonical text (packages/rulesets/src/content-hash.ts).
module Json {
  import opened Strings
  import opened Sorting

  /** The characters a number is written with, section 6 of RFC 8259. */
  predicate NumberChar(c: char)
  {
    '0' <= c <= '9' || c == '+' || c == '-' || c == '.' || c == 'e' || c == 'E'
  }

  /** A finite number, named by the one text JavaScript writes it as. */
  type NumText = t: string | t != "" && forall i :: 0 <= i < |t| ==> NumberChar(t[i])
    witness "0"

  /** A JavaScript value of JSON shape. An object lists its own keys in insertion order. */
  datatype Json =
    | Undefined
    | Null
    | NaN
    | Infinite(negative: bool)
    | Bool(b: bool)
    | Num(text: NumText)
    | Str(s: string)
    | Arr(items: seq<Json>)
    | Obj(fields: seq<Field>)

  datatype Field = Field(key: string, value: Json)

  /** The values `stableStringify` writes as null: null, no value, NaN and the infinities. */
  predicate ReadsAsNull(v: Json)
  {
    v.Undefined? || v.Null? || v.NaN? || v.Infinite?
  }

  predicate HasKey(fields: seq<Field>, key: string)
  {
    exists f :: f in fields && f.key == key
  }

  ghost predicate DistinctKeys(fields: seq<Field>)
  {
    forall i, j :: 0 <= i < j < |fields| ==> fields[i].key != fields[j].key
  }

  /** Every object, at any depth, holds each of its keys once. */
  ghost predicate WellFormed(v: Json)
  {
    match v
    case Arr(items) => forall x :: x in items ==> WellFormed(x)
    case Obj(fields) => DistinctKeys(fields) && forall f :: f in fields ==> WellFormed(f.value)
    case _ => true
  }

  /** The value under `key`; undefined when the object has no such key. */
  function Get(fields: seq<Field>, key: string): Json
  {
    if fields == [] then Undefined
    else if fields[0].key == key then fields[0].value
    else Get(fields[1..], key)
  }

  lemma {:induction false} GetFinds(fields: seq<Field>, f: Field)
    requires DistinctKeys(fields) && f in fields
    ensures Get(fields, f.key) == f.value
  {
    if fields[0] != f {
      assert fields[0].key != f.key;
      GetFinds(fields[1..], f);
    }
  }

  lemma {:induction false} GetIsAField(fields: seq<Field>, key: string)
    requires HasKey(fields, key)
    ensures Field(key, Get(fields, key)) in fields
  {
    if fields[0].key != key {
      GetIsAField(fields[1..], key);
    }
  }

  lemma {:induction false} GetMisses(fields: seq<Field>, key: string)
    requires !HasKey(fields, key)
    ensures Get(fields, key) == Undefined
  {
    if fields != [] {
      assert fields[0] in fields;
      GetMisses(fields[1..], key);
    }
  }

  /**
   * Equal up to the order of object keys, with no value read as null. A key present with no
   * value is still a key.
   */
  ghost predicate Same(a: Json, b: Json)
    decreases a
  {
    if ReadsAsNull(a) || ReadsAsNull(b) then ReadsAsNull(a) && ReadsAsNull(b)
    else match a
      case Bool(_) => a == b
      case Num(_) => a == b
      case Str(_) => a == b
      case Arr(items) =>
        b.Arr? && |items| == |b.items| && forall i :: 0 <= i < |items| ==> Same(items[i], b.items[i])
      case Obj(fields) =>
        && b.Obj?
        && (forall f :: f in fields ==> HasKey(b.fields, f.key) && Same(f.value, Get(b.fields, f.key)))
        && (forall f :: f in b.fields ==> HasKey(fields, f.key))
  }

  lemma {:induction false} SameIsReflexive(v: Json)
    requires WellFormed(v)
    ensures Same(v, v)
  {
    match v
    case Arr(items) =>
      forall i | 0 <= i < |items| ensures Same(items[i], items[i]) { SameIsReflexive(items[i]); }
    case Obj(fields) =>
      forall f | f in fields
        ensures HasKey(fields, f.key) && Same(f.value, Get(fields, f.key))
      {
        GetFinds(fields, f);
        SameIsReflexive(f.value);
      }
    case _ =>
  }

  // ---- stableStringify ----

  predicate KeyBefore(f: Field, g: Field)
  {
    Less(f.key, g.key)
  }

  /** The fields in the order of `Object.keys(record).sort()`. */
  function SortByKey(fields: seq<Field>): seq<Field>
  {
    SortBy(fields, KeyBefore)
  }

  function HexDigit(n: nat): char
    requires n < 16
  {
    if n < 10 then '0' + n as char else 'a' + (n - 10) as char
  }

  /** The letter of a two-character escape; the character itself when it has none. */
  function EscapeLetter(c: char): char
  {
    if c == 8 as char then 'b'
    else if c == 12 as char then 'f'
    else if c == '\n' then 'n'
    else if c == '\r' then 'r'
    else if c == '\t' then 't'
    else c
  }

  /** One character of a string, escaped as section 7 of RFC 8259 and `JSON.stringify` do. */
  function Escape(c: char): (r: string)
    ensures 1 <= |r| && r[0] != '"'
  {
    if c == '"' || c == '\\' || EscapeLetter(c) != c then ['\\', EscapeLetter(c)]
    else if c < ' ' then ['\\', 'u', '0', '0', HexDigit(c as int / 16), HexDigit(c as int % 16)]
    else [c]
  }

  function Escaped(s: string): string
  {
    if s == "" then "" else Escape(s[0]) + Escaped(s[1..])
  }

  function Quoted(s: string): string
  {
    "\"" + Escaped(s) + "\""
  }

  /** `stableStringify`: keys sorted, list order kept, no value written as null. */
  function Print(v: Json): string
    decreases v, 1
  {
    match v
    case Undefined => "null"
    case Null => "null"
    case NaN => "null"
    case Infinite(_) => "null"
    case Bool(b) => if b then "true" else "false"
    case Num(t) => t
    case Str(s) => Quoted(s)
    case Arr(items) => "[" + PrintItems(items) + "]"
    case Obj(fields) =>
      SortKeepsFields(fields);
      "{" + PrintMembers(SortByKey(fields), v) + "}"
  }

  function PrintItems(items: seq<Json>): string
    decreases items, 0
  {
    if items == [] then ""
    else if |items| == 1 then Print(items[0])
    else Print(items[0]) + "," + PrintItems(items[1..])
  }

  function PrintMember(f: Field, whole: Json): string
    requires f.value < whole
    decreases whole, 0, 0
  {
    Quoted(f.key) + ":" + Print(f.value)
  }

  function PrintMembers(fields: seq<Field>, whole: Json): string
    requires forall f :: f in fields ==> f.value < whole
    decreases whole, 0, |fields|
  {
    if fields == [] then ""
    else if |fields| == 1 then PrintMember(fields[0], whole)
    else PrintMember(fields[0], whole) + "," + PrintMembers(fields[1..], whole)
  }

  // ---- sorting keeps the fields and makes their order a function of the key set ----

  ghost function KeysOf(fields: seq<Field>): (keys: seq<string>)
    ensures |keys| == |fields| && forall i :: 0 <= i < |keys| ==> keys[i] == fields[i].key
  {
    seq(|fields|, i requires 0 <= i < |fields| => fields[i].key)
  }

  lemma {:induction false} KeyBeforeIsOrder()
    ensures IsOrder(KeyBefore)
  {
    forall f, g | KeyBefore(f, g)
      ensures !KeyBefore(g, f)
    {
      LessIsAsymmetric(f.key, g.key);
    }
    forall f, g, h | !KeyBefore(g, f) && !KeyBefore(h, g)
      ensures !KeyBefore(h, f)
    {
      LessIsTotal(f.key, g.key);
      LessIsTotal(g.key, h.key);
      if KeyBefore(f, g) && KeyBefore(g, h) {
        LessIsTransitive(f.key, g.key, h.key);
      }
      LessIsAsymmetric(f.key, h.key);
      LessIsIrreflexive(f.key);
    }
  }

  lemma {:induction false} SortKeepsFields(fields: seq<Field>)
    ensures forall g :: g in SortByKey(fields) <==> g in fields
    ensures |SortByKey(fields)| == |fields|
  {
    SortKeepsMembers(fields, KeyBefore);
  }

  lemma {:induction false} SortIncreases(fields: seq<Field>)
    requires DistinctKeys(fields)
    ensures Increasing(KeysOf(SortByKey(fields)))
  {
    var r := SortByKey(fields);
    KeyBeforeIsOrder();
    SortSorts(fields, KeyBefore);
    SortKeeps(fields, KeyBefore);
    forall i, j | 0 <= i < j < |r|
      ensures Less(r[i].key, r[j].key)
    {
      assert !KeyBefore(r[j], r[i]);
      LessIsTotal(r[i].key, r[j].key);
      if r[i].key == r[j].key {
        SharedKeyMeansTwice(fields, r, i, j);
      }
    }
  }

  /** A permutation of fields with distinct keys has distinct keys. */
  lemma {:induction false} SharedKeyMeansTwice(fields: seq<Field>, r: seq<Field>, i: nat, j: nat)
    requires multiset(r) == multiset(fields) && i < j < |r| && r[i].key == r[j].key
    ensures !DistinctKeys(fields)
  {
    SameMultisetSameMembers(r, fields, r[i]);
    SameMultisetSameMembers(r, fields, r[j]);
    if DistinctKeys(fields) {
      var p :| 0 <= p < |fields| && fields[p] == r[i];
      var q :| 0 <= q < |fields| && fields[q] == r[j];
      assert r[i] == r[j];
      TwiceInSequence(r, i, j);
      OnceInSequence(fields, p);
    }
  }

  lemma {:induction false} TwiceInSequence(r: seq<Field>, i: nat, j: nat)
    requires i < j < |r| && r[i] == r[j]
    ensures multiset(r)[r[i]] >= 2
  {
    assert r == r[..j] + r[j..] && r[i] in r[..j] && r[j] in r[j..];
  }

  lemma {:induction false} OnceInSequence(fields: seq<Field>, p: nat)
    requires DistinctKeys(fields) && p < |fields|
    ensures multiset(fields)[fields[p]] == 1
  {
    var rest := fields[..p] + fields[p + 1..];
    assert fields == fields[..p] + [fields[p]] + fields[p + 1..];
    assert fields[p] !in fields[..p] && fields[p] !in fields[p + 1..];
    assert multiset(fields) == multiset(fields[..p]) + multiset{fields[p]} + multiset(fields[p + 1..]);
  }
}
