// The lamps of a forked ruleset (packages/rulesets/src/lineage.ts) against the text the content
// hash reads.
module Lineage {
  import opened Options
  import opened Json
  import opened JsonText
  import opened ContentHash

  datatype BucketInputs = BucketInputs(
    grammar: Grammar,
    matchFormat: Json,
    winBonus: Option<NumText>,
    doublePenaltyFormula: Json)

  datatype BucketStatus = Unchanged | Changed

  datatype BucketDiff = BucketDiff(grammar: BucketStatus, endConditions: BucketStatus, ranking: BucketStatus,
                                   rankingCompatible: bool)

  /** What every object inherits besides `__proto__`: functions, which equal no value here. */
  const INHERITED: seq<string> := [
    "constructor", "hasOwnProperty", "isPrototypeOf", "propertyIsEnumerable", "toLocaleString", "toString", "valueOf",
    "__defineGetter__", "__defineSetter__", "__lookupGetter__", "__lookupSetter__"
  ]

  /** `deepEqual`. NaN equals nothing, itself included. */
  predicate DeepEqual(a: Json, b: Json)
    decreases a, 0
  {
    match a
    case NaN => false
    case Arr(items) =>
      b.Arr? && |items| == |b.items| && forall i :: 0 <= i < |items| ==> DeepEqual(items[i], b.items[i])
    case Obj(fields) =>
      b.Obj? && |fields| == |b.fields| && forall f :: f in fields ==> EqualUnder(f.value, b.fields, f.key)
    case _ => a == b
  }

  /**
   * A value against what the other object answers for the key, which is no own-property test: its
   * own value, else an inherited one, else undefined. Under `__proto__` every object inherits one
   * that shows no keys.
   */
  predicate EqualUnder(x: Json, fields: seq<Field>, key: string)
    decreases x, 1
  {
    if HasKey(fields, key) then DeepEqual(x, Get(fields, key))
    else if key == "__proto__" then x == Obj([])
    else x.Undefined? && key !in INHERITED
  }

  /** A value JSON can hold: no undefined and no number that is not finite, at any depth. */
  ghost predicate JsonShaped(v: Json)
  {
    match v
    case Undefined => false
    case NaN => false
    case Infinite(_) => false
    case Arr(items) => forall x :: x in items ==> JsonShaped(x)
    case Obj(fields) => DistinctKeys(fields) && forall f :: f in fields ==> JsonShaped(f.value)
    case _ => true
  }

  lemma {:induction false} JsonShapedIsWellFormed(v: Json)
    requires JsonShaped(v)
    ensures WellFormed(v)
  {
    match v
    case Arr(items) => forall x | x in items ensures WellFormed(x) { JsonShapedIsWellFormed(x); }
    case Obj(fields) => forall f | f in fields ensures WellFormed(f.value) { JsonShapedIsWellFormed(f.value); }
    case _ =>
  }

  ghost function KeySet(fields: seq<Field>): set<string>
  {
    set f | f in fields :: f.key
  }

  lemma {:induction false} KeySetCounts(fields: seq<Field>)
    requires DistinctKeys(fields)
    ensures |KeySet(fields)| == |fields|
  {
    if fields != [] {
      KeySetCounts(fields[1..]);
      assert KeySet(fields) == {fields[0].key} + KeySet(fields[1..]) by {
        assert fields == [fields[0]] + fields[1..];
      }
      assert fields[0].key !in KeySet(fields[1..]);
    }
  }

  lemma {:induction false} SubsetOfOneSize(a: set<string>, b: set<string>)
    requires a <= b && |a| == |b|
    ensures a == b
  {
    assert |b - a| == |b| - |a|;
  }

  /** Objects with one key count, where every key of one is a key of the other, share all keys. */
  lemma {:induction false} SharedKeys(a: seq<Field>, b: seq<Field>)
    requires DistinctKeys(a) && DistinctKeys(b)
    requires forall f :: f in a ==> HasKey(b, f.key)
    ensures |a| == |b| <==> forall f :: f in b ==> HasKey(a, f.key)
  {
    KeySetCounts(a);
    KeySetCounts(b);
    assert KeySet(a) <= KeySet(b);
    if |a| == |b| {
      SubsetOfOneSize(KeySet(a), KeySet(b));
      forall f | f in b
        ensures HasKey(a, f.key)
      {
        assert f.key in KeySet(a);
      }
    }
    if forall f :: f in b ==> HasKey(a, f.key) {
      assert KeySet(a) == KeySet(b);
    }
  }

  /** No object, at any depth, holds an empty object under a key of its own called `__proto__`. */
  ghost predicate PrototypeFree(v: Json)
  {
    match v
    case Arr(items) => forall x :: x in items ==> PrototypeFree(x)
    case Obj(fields) => forall f :: f in fields ==> !IsEmptyPrototype(f) && PrototypeFree(f.value)
    case _ => true
  }

  predicate IsEmptyPrototype(f: Field)
  {
    f.key == "__proto__" && f.value == Obj([])
  }

  /** On values JSON can hold, the lamps' equality is the hash's, equal up to key order, past that one key. */
  lemma {:induction false} DeepEqualIsSame(a: Json, b: Json)
    requires JsonShaped(a) && JsonShaped(b) && PrototypeFree(a)
    ensures DeepEqual(a, b) <==> Same(a, b)
    decreases a
  {
    if a.Arr? && b.Arr? && |a.items| == |b.items| {
      forall i | 0 <= i < |a.items|
        ensures DeepEqual(a.items[i], b.items[i]) <==> Same(a.items[i], b.items[i])
      {
        DeepEqualIsSame(a.items[i], b.items[i]);
      }
    } else if a.Obj? && b.Obj? {
      forall f | f in a.fields
        ensures EqualUnder(f.value, b.fields, f.key) <==> HasKey(b.fields, f.key) && Same(f.value, Get(b.fields, f.key))
      {
        if HasKey(b.fields, f.key) {
          GetIsAField(b.fields, f.key);
          DeepEqualIsSame(f.value, Get(b.fields, f.key));
        }
      }
      if forall f :: f in a.fields ==> HasKey(b.fields, f.key) {
        SharedKeys(a.fields, b.fields);
      }
    }
  }

  /** Any value JSON can hold equals itself by the walk. */
  lemma {:induction false} DeepEqualToItself(a: Json)
    requires JsonShaped(a)
    ensures DeepEqual(a, a)
    decreases a
  {
    if a.Arr? {
      forall i | 0 <= i < |a.items| ensures DeepEqual(a.items[i], a.items[i]) { DeepEqualToItself(a.items[i]); }
    } else if a.Obj? {
      forall f | f in a.fields
        ensures EqualUnder(f.value, a.fields, f.key)
      {
        GetFinds(a.fields, f);
        DeepEqualToItself(f.value);
      }
    }
  }

  function LongestKey(fields: seq<Field>): (n: nat)
    ensures forall f :: f in fields ==> |f.key| <= n
  {
    if fields == [] then 0
    else if |fields[0].key| > LongestKey(fields[1..]) then |fields[0].key|
    else LongestKey(fields[1..])
  }

  /** A key no field has. */
  function FreshKey(fields: seq<Field>): (key: string)
    ensures !HasKey(fields, key)
  {
    seq(LongestKey(fields) + 1, _ => 'y')
  }

  /** One field exchanged for another, under its own key or one the rest lacks. */
  lemma {:induction false} FieldExchanged(fields: seq<Field>, i: nat, g: Field, f: Field)
    requires DistinctKeys(fields) && i < |fields| && f in fields && f != fields[i]
    requires g.key == fields[i].key || !HasKey(fields, g.key)
    ensures DistinctKeys(fields[i := g])
    ensures HasKey(fields[i := g], f.key) && Get(fields[i := g], f.key) == f.value
    ensures HasKey(fields[i := g], g.key) && Get(fields[i := g], g.key) == g.value
  {
    var r := fields[i := g];
    forall j, k | 0 <= j < k < |r|
      ensures r[j].key != r[k].key
    {
      assert fields[j] in fields && fields[k] in fields;
    }
    var j :| 0 <= j < |fields| && fields[j] == f;
    assert r[j] == f && r[i] == g;
    GetFinds(r, r[j]);
    GetFinds(r, r[i]);
  }

  lemma {:induction false} ExchangeKeepsShape(fields: seq<Field>, i: nat, g: Field)
    requires JsonShaped(Obj(fields)) && i < |fields| && JsonShaped(g.value)
    requires g.key == fields[i].key || !HasKey(fields, g.key)
    ensures JsonShaped(Obj(fields[i := g]))
    ensures HasKey(fields[i := g], g.key) && Get(fields[i := g], g.key) == g.value
    ensures forall f :: f in fields && f != fields[i] ==> EqualUnder(f.value, fields[i := g], f.key)
  {
    var r := fields[i := g];
    forall j, k | 0 <= j < k < |r|
      ensures r[j].key != r[k].key
    {
      assert fields[j] in fields && fields[k] in fields;
    }
    forall f | f in r
      ensures JsonShaped(f.value)
    {
      var j :| 0 <= j < |r| && r[j] == f;
      assert j != i ==> fields[j] in fields;
    }
    assert r[i] in r;
    GetFinds(r, r[i]);
    forall f | f in fields && f != fields[i]
      ensures EqualUnder(f.value, r, f.key)
    {
      FieldExchanged(fields, i, g, f);
      DeepEqualToItself(f.value);
    }
  }

  /** A value with such a key has a twin: deeply equal to it and yet another value. */
  lemma {:induction false} PrototypeTwin(a: Json) returns (b: Json)
    requires JsonShaped(a) && !PrototypeFree(a)
    ensures JsonShaped(b) && DeepEqual(a, b) && !Same(a, b)
    decreases a
  {
    if a.Arr? {
      var i :| 0 <= i < |a.items| && !PrototypeFree(a.items[i]);
      var c := PrototypeTwin(a.items[i]);
      b := Arr(a.items[i := c]);
      forall j | 0 <= j < |a.items|
        ensures DeepEqual(a.items[j], b.items[j])
      {
        if j != i {
          DeepEqualToItself(a.items[j]);
        }
      }
      assert b.items[i] == c;
    } else {
      var i :| 0 <= i < |a.fields| && (IsEmptyPrototype(a.fields[i]) || !PrototypeFree(a.fields[i].value));
      assert a.fields[i] in a.fields;
      if IsEmptyPrototype(a.fields[i]) {
        b := EmptyPrototypeTwin(a.fields, i);
      } else {
        var c := PrototypeTwin(a.fields[i].value);
        var g := Field(a.fields[i].key, c);
        ExchangeKeepsShape(a.fields, i, g);
        b := Obj(a.fields[i := g]);
      }
    }
  }

  lemma {:induction false} EmptyPrototypeTwin(fields: seq<Field>, i: nat) returns (b: Json)
    requires JsonShaped(Obj(fields)) && i < |fields| && IsEmptyPrototype(fields[i])
    ensures JsonShaped(b) && DeepEqual(Obj(fields), b) && !Same(Obj(fields), b)
  {
    var g := Field(FreshKey(fields), Null);
    assert fields[i] in fields;
    assert g.key != "__proto__";
    ExchangeKeepsShape(fields, i, g);
    var r := fields[i := g];
    b := Obj(r);
    forall k | 0 <= k < |r|
      ensures r[k].key != "__proto__"
    {
      assert k != i ==> r[k] == fields[k];
    }
  }

  /** The walk is the hash's equality for one value and every other exactly when no such key is in it. */
  lemma {:induction false} DeepEqualIsSameUnlessPrototype(a: Json)
    requires JsonShaped(a)
    ensures PrototypeFree(a) <==> forall b :: JsonShaped(b) ==> (DeepEqual(a, b) <==> Same(a, b))
  {
    if PrototypeFree(a) {
      forall b | JsonShaped(b)
        ensures DeepEqual(a, b) <==> Same(a, b)
      {
        DeepEqualIsSame(a, b);
      }
    } else {
      var b := PrototypeTwin(a);
    }
  }

  /** The trap in its smallest form: `{"__proto__": {}}` passes for `{y: v}`, and their texts differ. */
  lemma {:induction false} PrototypeKeyPasses(prototype: string, y: string, v: Json)
    requires prototype == "__proto__" && y != prototype && JsonShaped(v)
    ensures DeepEqual(Obj([Field(prototype, Obj([]))]), Obj([Field(y, v)]))
    ensures Print(Obj([Field(prototype, Obj([]))])) != Print(Obj([Field(y, v)]))
  {
    JsonShapedIsWellFormed(v);
    OtherKeyIsOtherText(prototype, Obj([]), y, v);
    assert !HasKey([Field(y, v)], prototype);
  }

  lemma {:induction false} OtherKeyIsOtherText(x: string, u: Json, y: string, v: Json)
    requires x != y && WellFormed(u) && WellFormed(v)
    ensures Print(Obj([Field(x, u)])) != Print(Obj([Field(y, v)]))
  {
    var a, b := Obj([Field(x, u)]), Obj([Field(y, v)]);
    PrintIsIdentity(a, b);
    assert a.fields[0] in a.fields;
    assert !HasKey(b.fields, x);
  }

  /**
   * Outside JSON the two part as well: a key with no value stands in for a key the other object has,
   * so `{x: undefined}` and `{y: v}` are deeply equal and hash apart.
   */
  lemma {:induction false} UndefinedValuesPart(x: string, y: string, v: Json)
    requires x != y && x != "__proto__" && x !in INHERITED && JsonShaped(v)
    ensures DeepEqual(Obj([Field(x, Undefined)]), Obj([Field(y, v)]))
    ensures Print(Obj([Field(x, Undefined)])) != Print(Obj([Field(y, v)]))
  {
    JsonShapedIsWellFormed(v);
    OtherKeyIsOtherText(x, Undefined, y, v);
    assert !HasKey([Field(y, v)], x);
  }

  // ---- the buckets ----

  function StatusOf(equal: bool): BucketStatus
  {
    if equal then Unchanged else Changed
  }

  function DiffRulesetBuckets(base: BucketInputs, fork: BucketInputs): BucketDiff
  {
    var g, h := base.grammar, fork.grammar;
    var grammar := StatusOf(
      && DeepEqual(TargetsJson(SortedTargets(g.targets)), TargetsJson(SortedTargets(h.targets)))
      && g.hasAfterblow == h.hasAfterblow
      && g.afterblowValuation == h.afterblowValuation
      && g.afterblowFixedValue == h.afterblowFixedValue);
    var endConditions := StatusOf(DeepEqual(base.matchFormat, fork.matchFormat));
    var ranking := StatusOf(
      && base.winBonus == fork.winBonus
      && DeepEqual(base.doublePenaltyFormula, fork.doublePenaltyFormula));
    BucketDiff(grammar, endConditions, ranking, ranking == Unchanged)
  }

  predicate NoLamp(diff: BucketDiff)
  {
    diff.grammar == Unchanged && diff.endConditions == Unchanged && diff.ranking == Unchanged
  }

  // ---- the lamps against the hash ----

  /** The engine and the afterblow mode, which are not the ruleset row's. */
  datatype Engine = Engine(code: string, version: string, afterblowMode: Option<string>)

  /** The behaviour of a coded ruleset with these bucket values. */
  function Played(e: Engine, b: BucketInputs): Behaviour
  {
    Coded(e.code, e.version, b.grammar, b.matchFormat, e.afterblowMode, b.winBonus, b.doublePenaltyFormula)
  }

  ghost predicate SameHashedText(e: Engine, base: BucketInputs, fork: BucketInputs)
  {
    Print(Canonicalize(Played(e, base))) == Print(Canonicalize(Played(e, fork)))
  }

  /** The configured values of a ruleset, as JSON holds them. */
  ghost predicate HoldsJson(b: BucketInputs)
  {
    JsonShaped(b.matchFormat) && JsonShaped(b.doublePenaltyFormula)
  }

  lemma {:induction false} TargetsAreShaped(targets: Option<seq<Target>>)
    ensures JsonShaped(TargetsJson(targets)) && PrototypeFree(TargetsJson(targets))
  {
    if targets.Some? {
      forall i | 0 <= i < |targets.value|
        ensures JsonShaped(TargetJson(targets.value[i])) && PrototypeFree(TargetJson(targets.value[i]))
      {
        TargetIsShaped(targets.value[i]);
      }
    }
  }

  lemma {:induction false} TargetIsShaped(t: Target)
    ensures JsonShaped(TargetJson(t)) && PrototypeFree(TargetJson(t))
  {
    var r := TargetJson(t);
    assert r.fields[0] == Field("name", Str(t.name)) && r.fields[1] == Field("value", Num(t.value));
    forall f | f in r.fields
      ensures f == r.fields[0] || f == r.fields[1]
    {
    }
  }

  lemma {:induction false} GrammarLamp(base: BucketInputs, fork: BucketInputs)
    ensures DiffRulesetBuckets(base, fork).grammar == Unchanged <==> SameGrammar(base.grammar, fork.grammar)
  {
    var ts, us := SortedTargets(base.grammar.targets), SortedTargets(fork.grammar.targets);
    TargetsAreShaped(ts);
    TargetsAreShaped(us);
    DeepEqualIsSame(TargetsJson(ts), TargetsJson(us));
    TargetsSame(ts, us);
  }

  /** What two rulesets played by one engine in one afterblow mode can differ in. */
  lemma {:induction false} SameTextIsSameParts(e: Engine, base: BucketInputs, fork: BucketInputs)
    requires HoldsJson(base) && HoldsJson(fork)
    ensures SameHashedText(e, base, fork) <==>
            && SameGrammar(base.grammar, fork.grammar) && Same(base.matchFormat, fork.matchFormat)
            && base.winBonus == fork.winBonus && Same(base.doublePenaltyFormula, fork.doublePenaltyFormula)
  {
    JsonShapedIsWellFormed(base.matchFormat);
    JsonShapedIsWellFormed(base.doublePenaltyFormula);
    JsonShapedIsWellFormed(fork.matchFormat);
    JsonShapedIsWellFormed(fork.doublePenaltyFormula);
    HashedTextNamesTheBehaviour(Played(e, base), Played(e, fork));
  }

  /**
   * Two coded rulesets of one engine and one afterblow mode light no lamp if and only if the
   * content hash reads one text for both.
   */
  lemma {:induction false} NoLampIffSameHashedText(e: Engine, base: BucketInputs, fork: BucketInputs)
    requires HoldsJson(base) && HoldsJson(fork)
    requires PrototypeFree(base.matchFormat) && PrototypeFree(base.doublePenaltyFormula)
    ensures NoLamp(DiffRulesetBuckets(base, fork)) <==> SameHashedText(e, base, fork)
  {
    SameTextIsSameParts(e, base, fork);
    GrammarLamp(base, fork);
    DeepEqualIsSame(base.matchFormat, fork.matchFormat);
    DeepEqualIsSame(base.doublePenaltyFormula, fork.doublePenaltyFormula);
  }

  /** A base with such a key in its format or its penalty formula has a fork no lamp tells from it. */
  lemma {:induction false} PrototypeForkIsUnlit(e: Engine, base: BucketInputs) returns (fork: BucketInputs)
    requires HoldsJson(base) && !(PrototypeFree(base.matchFormat) && PrototypeFree(base.doublePenaltyFormula))
    ensures HoldsJson(fork) && NoLamp(DiffRulesetBuckets(base, fork)) && !SameHashedText(e, base, fork)
  {
    if !PrototypeFree(base.matchFormat) {
      var twin := PrototypeTwin(base.matchFormat);
      fork := base.(matchFormat := twin);
    } else {
      var twin := PrototypeTwin(base.doublePenaltyFormula);
      fork := base.(doublePenaltyFormula := twin);
    }
    DeepEqualToItself(base.matchFormat);
    DeepEqualToItself(base.doublePenaltyFormula);
    GrammarLamp(base, fork);
    SameTextIsSameParts(e, base, fork);
  }

  /** So the lamps and the hash agree on a base and every fork of it exactly when it holds no such key. */
  lemma {:induction false} LampsAgreeUnlessPrototype(e: Engine, base: BucketInputs)
    requires HoldsJson(base)
    ensures PrototypeFree(base.matchFormat) && PrototypeFree(base.doublePenaltyFormula) <==>
            forall fork :: HoldsJson(fork) ==> (NoLamp(DiffRulesetBuckets(base, fork)) <==> SameHashedText(e, base, fork))
  {
    if PrototypeFree(base.matchFormat) && PrototypeFree(base.doublePenaltyFormula) {
      forall fork | HoldsJson(fork)
        ensures NoLamp(DiffRulesetBuckets(base, fork)) <==> SameHashedText(e, base, fork)
      {
        NoLampIffSameHashedText(e, base, fork);
      }
    } else {
      var fork := PrototypeForkIsUnlit(e, base);
    }
  }
}
