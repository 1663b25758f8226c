// The canonical text names a value: two values print alike exactly when they are the same value.
module JsonText {
  import opened Strings
  import opened Json

  /** What may follow a value inside a text: its end, or the mark that closes or separates it. */
  predicate Stops(x: string)
  {
    x == "" || x[0] == ',' || x[0] == ']' || x[0] == '}'
  }

  /** Equal texts with heads of one length have equal heads and equal rests. */
  lemma {:induction false} Peel(h: string, u: string, g: string, w: string)
    requires h + u == g + w && |h| == |g|
    ensures h == g && u == w
  {
    assert h == (h + u)[..|h|] && g == (g + w)[..|h|];
    assert u == (h + u)[|h|..] && w == (g + w)[|h|..];
  }

  lemma {:induction false} Heads(h: string, u: string, g: string, w: string)
    requires h + u == g + w && h != "" && g != ""
    ensures h[0] == g[0]
  {
    assert (h + u)[0] == h[0] && (g + w)[0] == g[0];
  }

  lemma {:induction false} Regroup(h: string, mark: string, u: string, w: string)
    ensures (h + mark + u) + w == h + (mark + (u + w))
  {
  }

  lemma {:induction false} HexDigitIsInjective(m: nat, n: nat)
    requires m < 16 && n < 16
    ensures HexDigit(m) == HexDigit(n) ==> m == n
  {
  }

  lemma {:induction false} EscapeIsInjective(c: char, d: char)
    requires Escape(c) == Escape(d)
    ensures c == d
  {
    if |Escape(c)| == 6 {
      HexDigitIsInjective(c as int / 16, d as int / 16);
      HexDigitIsInjective(c as int % 16, d as int % 16);
      assert Escape(c)[4] == Escape(d)[4] && Escape(c)[5] == Escape(d)[5];
      assert c as int == 16 * (c as int / 16) + c as int % 16;
      assert d as int == 16 * (d as int / 16) + d as int % 16;
    } else {
      assert Escape(c)[|Escape(c)| - 1] == Escape(d)[|Escape(c)| - 1];
    }
  }

  /** The first two characters of an escape tell its length. */
  lemma {:induction false} EscapeIsUnambiguous(c: char, d: char, u: string, w: string)
    requires Escape(c) + u == Escape(d) + w
    ensures c == d && u == w
  {
    var l, r := Escape(c) + u, Escape(d) + w;
    assert l[0] == Escape(c)[0] && r[0] == Escape(d)[0];
    if |Escape(c)| != 1 {
      assert l[1] == Escape(c)[1] && r[1] == Escape(d)[1];
    }
    assert |Escape(c)| == |Escape(d)|;
    Peel(Escape(c), u, Escape(d), w);
    EscapeIsInjective(c, d);
  }

  lemma {:induction false} EscapedSplit(s: string, x: string)
    ensures Escaped(s) + ("\"" + x) == if s == "" then "\"" + x else Escape(s[0]) + (Escaped(s[1..]) + ("\"" + x))
  {
    if s == "" {
      assert "" + ("\"" + x) == "\"" + x;
    }
  }

  lemma {:induction false} EscapedIsUnambiguous(s: string, t: string, x: string, y: string)
    requires Escaped(s) + ("\"" + x) == Escaped(t) + ("\"" + y)
    ensures s == t && x == y
  {
    EscapedSplit(s, x);
    EscapedSplit(t, y);
    if s == "" && t == "" {
      Peel("\"", x, "\"", y);
    } else if s == "" {
      Heads("\"", x, Escape(t[0]), Escaped(t[1..]) + ("\"" + y));
    } else if t == "" {
      Heads(Escape(s[0]), Escaped(s[1..]) + ("\"" + x), "\"", y);
    } else {
      EscapeIsUnambiguous(s[0], t[0], Escaped(s[1..]) + ("\"" + x), Escaped(t[1..]) + ("\"" + y));
      EscapedIsUnambiguous(s[1..], t[1..], x, y);
      assert s == [s[0]] + s[1..] && t == [t[0]] + t[1..];
    }
  }

  lemma {:induction false} QuotedIsUnambiguous(s: string, t: string, x: string, y: string)
    requires Quoted(s) + x == Quoted(t) + y
    ensures s == t && x == y
  {
    var p, q := Escaped(s) + ("\"" + x), Escaped(t) + ("\"" + y);
    assert Quoted(s) + x == "\"" + p && Quoted(t) + y == "\"" + q;
    Peel("\"", p, "\"", q);
    EscapedIsUnambiguous(s, t, x, y);
  }

  lemma {:induction false} NumberIsUnambiguous(s: NumText, t: NumText, x: string, y: string)
    requires s + x == t + y && Stops(x) && Stops(y)
    ensures s == t && x == y
  {
    var l, r := s + x, t + y;
    assert forall i :: 0 <= i < |s| ==> l[i] == s[i];
    assert forall i :: 0 <= i < |t| ==> r[i] == t[i];
    assert |s| < |l| ==> l[|s|] == x[0];
    assert |t| < |r| ==> r[|t|] == y[0];
    assert forall i :: 0 <= i < |t| ==> NumberChar(r[i]);
    assert forall i :: 0 <= i < |s| ==> NumberChar(l[i]);
    Peel(s, x, t, y);
  }

  /** The mark a value's text starts with tells its kind. */
  predicate Starts(v: Json, c: char)
  {
    match v
    case Bool(_) => c == 't' || c == 'f'
    case Num(_) => NumberChar(c)
    case Str(_) => c == '"'
    case Arr(_) => c == '['
    case Obj(_) => c == '{'
    case _ => c == 'n'
  }

  lemma {:induction false} FirstCharacter(v: Json)
    ensures Print(v) != "" && Starts(v, Print(v)[0])
  {
    match v
    case Num(t) =>
    case Obj(fields) => SortKeepsFields(fields);
    case _ =>
  }

  ghost predicate SameItems(a: seq<Json>, b: seq<Json>)
  {
    |a| == |b| && forall i :: 0 <= i < |a| ==> Same(a[i], b[i])
  }

  ghost predicate SameMembers(a: seq<Field>, b: seq<Field>)
  {
    |a| == |b| && forall i :: 0 <= i < |a| ==> a[i].key == b[i].key && Same(a[i].value, b[i].value)
  }

  /** The text after the first of some items, up to and past the bracket that closes them. */
  ghost function ItemsTail(items: seq<Json>, x: string): string
    requires items != []
  {
    if |items| == 1 then "]" + x else "," + (PrintItems(items[1..]) + ("]" + x))
  }

  ghost function MembersTail(fields: seq<Field>, whole: Json, x: string): string
    requires fields != [] && forall f :: f in fields ==> f.value < whole
  {
    if |fields| == 1 then "}" + x else "," + (PrintMembers(fields[1..], whole) + ("}" + x))
  }

  lemma {:induction false} ItemsSplit(items: seq<Json>, x: string)
    requires items != []
    ensures PrintItems(items) + ("]" + x) == Print(items[0]) + ItemsTail(items, x)
  {
    if |items| > 1 {
      Regroup(Print(items[0]), ",", PrintItems(items[1..]), "]" + x);
    }
  }

  lemma {:induction false} MembersSplit(fields: seq<Field>, whole: Json, x: string)
    requires fields != [] && forall f :: f in fields ==> f.value < whole
    ensures PrintMembers(fields, whole) + ("}" + x)
         == Quoted(fields[0].key) + (":" + (Print(fields[0].value) + MembersTail(fields, whole, x)))
  {
    var m, tail := PrintMember(fields[0], whole), MembersTail(fields, whole, x);
    Regroup(Quoted(fields[0].key), ":", Print(fields[0].value), tail);
    if |fields| > 1 {
      Regroup(m, ",", PrintMembers(fields[1..], whole), "}" + x);
    }
  }

  lemma {:induction false} KindsMatch(a: Json, b: Json, x: string, y: string)
    requires Print(a) + x == Print(b) + y
    ensures ReadsAsNull(a) == ReadsAsNull(b)
    ensures a.Bool? == b.Bool? && a.Num? == b.Num? && a.Str? == b.Str? && a.Arr? == b.Arr? && a.Obj? == b.Obj?
  {
    FirstCharacter(a);
    FirstCharacter(b);
    Heads(Print(a), x, Print(b), y);
  }

  /**
   * No two texts of values can be confused, whatever follows them: from equal texts one reads the
   * same value, up to key order, and the same rest.
   */
  lemma {:induction false} Unambiguous(a: Json, b: Json, x: string, y: string)
    requires WellFormed(a) && WellFormed(b)
    requires Print(a) + x == Print(b) + y
    requires Stops(x) && Stops(y)
    ensures Same(a, b) && x == y
    decreases a, 1
  {
    KindsMatch(a, b, x, y);
    if a.Num? {
      NumberIsUnambiguous(a.text, b.text, x, y);
    } else if a.Str? {
      QuotedIsUnambiguous(a.s, b.s, x, y);
    } else if a.Arr? {
      var p, q := PrintItems(a.items) + ("]" + x), PrintItems(b.items) + ("]" + y);
      assert Print(a) + x == "[" + p && Print(b) + y == "[" + q;
      Peel("[", p, "[", q);
      ItemsUnambiguous(a.items, b.items, x, y);
    } else if a.Obj? {
      ObjectsUnambiguous(a, b, x, y);
    } else if a.Bool? {
      Heads(Print(a), x, Print(b), y);
      Peel(Print(a), x, Print(b), y);
    } else {
      Peel(Print(a), x, Print(b), y);
    }
  }

  lemma {:induction false} ObjectsUnambiguous(a: Json, b: Json, x: string, y: string)
    requires a.Obj? && b.Obj? && WellFormed(a) && WellFormed(b)
    requires Print(a) + x == Print(b) + y
    ensures Same(a, b) && x == y
    decreases a, 0
  {
    SortKeepsFields(a.fields);
    SortKeepsFields(b.fields);
    var m, n := SortByKey(a.fields), SortByKey(b.fields);
    ObjectOpens(a, x);
    ObjectOpens(b, y);
    Peel("{", PrintMembers(m, a) + ("}" + x), "{", PrintMembers(n, b) + ("}" + y));
    MembersUnambiguous(m, n, a, b, x, y);
    MembersGiveSame(a, b);
  }

  lemma {:induction false} ObjectOpens(v: Json, x: string)
    requires v.Obj?
    ensures forall f :: f in SortByKey(v.fields) ==> f.value < v
    ensures Print(v) + x == "{" + (PrintMembers(SortByKey(v.fields), v) + ("}" + x))
  {
    SortKeepsFields(v.fields);
  }

  lemma {:induction false} ItemsUnambiguous(a: seq<Json>, b: seq<Json>, x: string, y: string)
    requires forall v :: v in a ==> WellFormed(v)
    requires forall v :: v in b ==> WellFormed(v)
    requires PrintItems(a) + ("]" + x) == PrintItems(b) + ("]" + y)
    ensures SameItems(a, b) && x == y
    decreases a, 0
  {
    if a != [] { FirstCharacter(a[0]); ItemsSplit(a, x); }
    if b != [] { FirstCharacter(b[0]); ItemsSplit(b, y); }
    if a == [] && b == [] {
      assert "" + ("]" + x) == "]" + x && "" + ("]" + y) == "]" + y;
      Peel("]", x, "]", y);
    } else if a == [] {
      Heads("]", x, Print(b[0]), ItemsTail(b, y));
    } else if b == [] {
      Heads(Print(a[0]), ItemsTail(a, x), "]", y);
    } else {
      Unambiguous(a[0], b[0], ItemsTail(a, x), ItemsTail(b, y));
      ItemTailsMatch(a, b, x, y);
      if |a| > 1 {
        ItemsUnambiguous(a[1..], b[1..], x, y);
        forall i | 0 <= i < |a|
          ensures Same(a[i], b[i])
        {
          assert i > 0 ==> a[i] == a[1..][i - 1] && b[i] == b[1..][i - 1];
        }
      }
    }
  }

  lemma {:induction false} ItemTailsMatch(a: seq<Json>, b: seq<Json>, x: string, y: string)
    requires a != [] && b != [] && ItemsTail(a, x) == ItemsTail(b, y)
    ensures |a| == 1 <==> |b| == 1
    ensures |a| == 1 ==> x == y
    ensures |a| > 1 ==> PrintItems(a[1..]) + ("]" + x) == PrintItems(b[1..]) + ("]" + y)
  {
    var u, w := ItemsTail(a, x), ItemsTail(b, y);
    assert u[1..] == if |a| == 1 then x else PrintItems(a[1..]) + ("]" + x);
    assert w[1..] == if |b| == 1 then y else PrintItems(b[1..]) + ("]" + y);
    assert u[0] == if |a| == 1 then ']' else ',';
    assert w[0] == if |b| == 1 then ']' else ',';
  }

  lemma {:induction false} MembersUnambiguous(a: seq<Field>, b: seq<Field>, wholeA: Json, wholeB: Json,
                                              x: string, y: string)
    requires forall f :: f in a ==> f.value < wholeA && WellFormed(f.value)
    requires forall f :: f in b ==> f.value < wholeB && WellFormed(f.value)
    requires PrintMembers(a, wholeA) + ("}" + x) == PrintMembers(b, wholeB) + ("}" + y)
    ensures SameMembers(a, b) && x == y
    decreases wholeA, 0, |a|
  {
    if a != [] { MembersSplit(a, wholeA, x); }
    if b != [] { MembersSplit(b, wholeB, y); }
    if a == [] && b == [] {
      assert "" + ("}" + x) == "}" + x && "" + ("}" + y) == "}" + y;
      Peel("}", x, "}", y);
    } else if a == [] {
      Heads("}", x, Quoted(b[0].key), ":" + (Print(b[0].value) + MembersTail(b, wholeB, y)));
    } else if b == [] {
      Heads(Quoted(a[0].key), ":" + (Print(a[0].value) + MembersTail(a, wholeA, x)), "}", y);
    } else {
      FirstMemberUnambiguous(a, b, wholeA, wholeB, x, y);
      if |a| > 1 {
        MembersUnambiguous(a[1..], b[1..], wholeA, wholeB, x, y);
        forall i | 0 <= i < |a|
          ensures a[i].key == b[i].key && Same(a[i].value, b[i].value)
        {
          assert i > 0 ==> a[i] == a[1..][i - 1] && b[i] == b[1..][i - 1];
        }
      }
    }
  }

  lemma {:induction false} TailsMatch(a: seq<Field>, b: seq<Field>, wholeA: Json, wholeB: Json, x: string, y: string)
    requires a != [] && forall f :: f in a ==> f.value < wholeA
    requires b != [] && forall f :: f in b ==> f.value < wholeB
    requires MembersTail(a, wholeA, x) == MembersTail(b, wholeB, y)
    ensures |a| == 1 <==> |b| == 1
    ensures |a| == 1 ==> x == y
    ensures |a| > 1 ==> PrintMembers(a[1..], wholeA) + ("}" + x) == PrintMembers(b[1..], wholeB) + ("}" + y)
  {
    var u, w := MembersTail(a, wholeA, x), MembersTail(b, wholeB, y);
    assert u[1..] == if |a| == 1 then x else PrintMembers(a[1..], wholeA) + ("}" + x);
    assert w[1..] == if |b| == 1 then y else PrintMembers(b[1..], wholeB) + ("}" + y);
    assert u[0] == if |a| == 1 then '}' else ',';
    assert w[0] == if |b| == 1 then '}' else ',';
  }

  lemma {:induction false} FirstMemberUnambiguous(a: seq<Field>, b: seq<Field>, wholeA: Json, wholeB: Json,
                                                  x: string, y: string)
    requires a != [] && b != []
    requires forall f :: f in a ==> f.value < wholeA && WellFormed(f.value)
    requires forall f :: f in b ==> f.value < wholeB && WellFormed(f.value)
    requires PrintMembers(a, wholeA) + ("}" + x) == PrintMembers(b, wholeB) + ("}" + y)
    ensures a[0].key == b[0].key && Same(a[0].value, b[0].value)
    ensures |a| == 1 <==> |b| == 1
    ensures |a| == 1 ==> x == y
    ensures |a| > 1 ==> PrintMembers(a[1..], wholeA) + ("}" + x) == PrintMembers(b[1..], wholeB) + ("}" + y)
    decreases wholeA, 0, 0
  {
    MembersSplit(a, wholeA, x);
    MembersSplit(b, wholeB, y);
    var u, w := MembersTail(a, wholeA, x), MembersTail(b, wholeB, y);
    var p, q := Print(a[0].value) + u, Print(b[0].value) + w;
    QuotedIsUnambiguous(a[0].key, b[0].key, ":" + p, ":" + q);
    Peel(":", p, ":", q);
    Unambiguous(a[0].value, b[0].value, u, w);
    TailsMatch(a, b, wholeA, wholeB, x, y);
  }

  lemma {:induction false} MemberIsShared(a: seq<Field>, b: seq<Field>, f: Field)
    requires DistinctKeys(b) && SameMembers(SortByKey(a), SortByKey(b)) && f in a
    ensures HasKey(b, f.key) && Same(f.value, Get(b, f.key))
  {
    var p, q := SortByKey(a), SortByKey(b);
    SortKeepsFields(a);
    SortKeepsFields(b);
    assert f in p;
    var i :| 0 <= i < |p| && p[i] == f;
    assert q[i] in b;
    GetFinds(b, q[i]);
  }

  lemma {:induction false} KeyIsShared(a: seq<Field>, b: seq<Field>, f: Field)
    requires SameMembers(SortByKey(a), SortByKey(b)) && f in b
    ensures HasKey(a, f.key)
  {
    var p, q := SortByKey(a), SortByKey(b);
    SortKeepsFields(a);
    SortKeepsFields(b);
    assert f in q;
    var i :| 0 <= i < |q| && q[i] == f;
    assert p[i] in a;
  }

  /** Two objects whose sorted members agree one by one are the same object. */
  lemma {:induction false} MembersGiveSame(a: Json, b: Json)
    requires a.Obj? && b.Obj? && WellFormed(a) && WellFormed(b)
    requires SameMembers(SortByKey(a.fields), SortByKey(b.fields))
    ensures Same(a, b)
  {
    forall f | f in a.fields
      ensures HasKey(b.fields, f.key) && Same(f.value, Get(b.fields, f.key))
    {
      MemberIsShared(a.fields, b.fields, f);
    }
    forall f | f in b.fields
      ensures HasKey(a.fields, f.key)
    {
      KeyIsShared(a.fields, b.fields, f);
    }
  }

  /** The same object sorts to the same keys, with the same values. */
  lemma {:induction false} SameGivesMembers(a: Json, b: Json)
    requires a.Obj? && b.Obj? && WellFormed(a) && WellFormed(b)
    requires Same(a, b)
    ensures SameMembers(SortByKey(a.fields), SortByKey(b.fields))
  {
    var p, q := SortByKey(a.fields), SortByKey(b.fields);
    SortKeepsFields(a.fields);
    SortKeepsFields(b.fields);
    SortIncreases(a.fields);
    SortIncreases(b.fields);
    forall k
      ensures k in KeysOf(p) <==> k in KeysOf(q)
    {
      assert HasKey(p, k) <==> HasKey(a.fields, k);
      assert HasKey(q, k) <==> HasKey(b.fields, k);
    }
    IncreasingIsUnique(KeysOf(p), KeysOf(q));
    forall i | 0 <= i < |p|
      ensures p[i].key == q[i].key && Same(p[i].value, q[i].value)
    {
      assert p[i].key == KeysOf(p)[i] == KeysOf(q)[i] == q[i].key;
      assert p[i] in a.fields && q[i] in b.fields;
      GetFinds(b.fields, q[i]);
    }
  }

  lemma {:induction false} SamePrintsAlike(a: Json, b: Json)
    requires WellFormed(a) && WellFormed(b) && Same(a, b)
    ensures Print(a) == Print(b)
    decreases a, 1
  {
    if a.Arr? {
      ItemsPrintAlike(a.items, b.items);
    } else if a.Obj? {
      SortKeepsFields(a.fields);
      SortKeepsFields(b.fields);
      SameGivesMembers(a, b);
      MembersPrintAlike(SortByKey(a.fields), SortByKey(b.fields), a, b);
    }
  }

  lemma {:induction false} ItemsPrintAlike(a: seq<Json>, b: seq<Json>)
    requires forall v :: v in a ==> WellFormed(v)
    requires forall v :: v in b ==> WellFormed(v)
    requires SameItems(a, b)
    ensures PrintItems(a) == PrintItems(b)
    decreases a, 0
  {
    if a != [] {
      SamePrintsAlike(a[0], b[0]);
      ItemsPrintAlike(a[1..], b[1..]);
    }
  }

  lemma {:induction false} MembersPrintAlike(a: seq<Field>, b: seq<Field>, wholeA: Json, wholeB: Json)
    requires forall f :: f in a ==> f.value < wholeA && WellFormed(f.value)
    requires forall f :: f in b ==> f.value < wholeB && WellFormed(f.value)
    requires SameMembers(a, b)
    ensures PrintMembers(a, wholeA) == PrintMembers(b, wholeB)
    decreases wholeA, 0, |a|
  {
    if a != [] {
      SamePrintsAlike(a[0].value, b[0].value);
      MembersPrintAlike(a[1..], b[1..], wholeA, wholeB);
    }
  }

  /**
   * The content hash's text is an identity: two values of JSON shape have one text if and only if
   * they are equal up to the order of object keys.
   */
  lemma {:induction false} PrintIsIdentity(a: Json, b: Json)
    requires WellFormed(a) && WellFormed(b)
    ensures Print(a) == Print(b) <==> Same(a, b)
  {
    if Same(a, b) {
      SamePrintsAlike(a, b);
    }
    if Print(a) == Print(b) {
      assert Print(a) + "" == Print(b) + "";
      Unambiguous(a, b, "", "");
    }
  }
}
