// What decides a tournament's scores, and the canonical its content hash reads
// (packages/rulesets/src/content-hash.ts).
module ContentHash {
  import opened Options
  import opened Strings
  import opened Sorting
  import opened Json
  import opened JsonText
  import opened JsonPaths
  import opened JsonRecords

  datatype Target = Target(name: string, value: NumText)

  datatype Grammar = Grammar(
    targets: Option<seq<Target>>,
    hasAfterblow: bool,
    afterblowValuation: Option<string>,
    afterblowFixedValue: Option<NumText>)

  datatype Tiebreaker = Tiebreaker(variable: string, direction: string)

  /** A coded ruleset's maths is its engine; a formula ruleset's is data. The match format is a normalised one. */
  datatype Behaviour =
    | Coded(engineCode: string, engineVersion: string, grammar: Grammar, matchFormat: Json,
            afterblowMode: Option<string>, winBonus: Option<NumText>, doublePenaltyFormula: Json)
    | Formula(grammar: Grammar, matchFormat: Json, afterblowMode: Option<string>, scoreFormula: Json,
              constants: seq<Field>, tiebreakers: seq<Tiebreaker>, doublePenaltyFormula: Json,
              decisionEdition: Option<string>)

  const GRAMMAR_KEYS: seq<string> := ["targets", "hasAfterblow", "afterblowValuation", "afterblowFixedValue"]
  const CODED_KEYS: seq<string> :=
    ["kind", "engine", "grammar", "matchFormat", "afterblowMode", "winBonus", "doublePenaltyFormula"]
  const FORMULA_KEYS: seq<string> :=
    ["kind", "grammar", "matchFormat", "afterblowMode", "scoreFormula", "constants", "tiebreakers",
     "doublePenaltyFormula", "decisionEdition"]
  const TARGET_KEYS: seq<string> := ["name", "value"]
  const TIEBREAKER_KEYS: seq<string> := ["variable", "direction"]

  // ---- the canonical ----

  predicate NameBefore(s: Target, t: Target)
  {
    Less(s.name, t.name)
  }

  /** Targets sorted by name: their order is the pad's layout, not behaviour. */
  function SortedTargets(targets: Option<seq<Target>>): Option<seq<Target>>
  {
    match targets
    case None => None
    case Some(ts) => Some(SortBy(ts, NameBefore))
  }

  function TargetJson(t: Target): Json
  {
    Record(TARGET_KEYS, [Str(t.name), Num(t.value)])
  }

  function TargetsJson(targets: Option<seq<Target>>): Json
  {
    match targets
    case None => Null
    case Some(ts) => Arr(seq(|ts|, i requires 0 <= i < |ts| => TargetJson(ts[i])))
  }

  function TiebreakerJson(t: Tiebreaker): Json
  {
    Record(TIEBREAKER_KEYS, [Str(t.variable), Str(t.direction)])
  }

  function TiebreakersJson(ts: seq<Tiebreaker>): Json
  {
    Arr(seq(|ts|, i requires 0 <= i < |ts| => TiebreakerJson(ts[i])))
  }

  function TextOrNull(t: Option<string>): Json
  {
    match t
    case None => Null
    case Some(s) => Str(s)
  }

  function NumberOrNull(n: Option<NumText>): Json
  {
    match n
    case None => Null
    case Some(t) => Num(t)
  }

  /** `?? null`. */
  function OrNull(v: Json): Json
  {
    if v.Undefined? then Null else v
  }

  function GrammarValues(g: Grammar): seq<Json>
  {
    [TargetsJson(SortedTargets(g.targets)), Bool(g.hasAfterblow), TextOrNull(g.afterblowValuation),
     NumberOrNull(g.afterblowFixedValue)]
  }

  function GrammarCanonical(g: Grammar): Json
  {
    Record(GRAMMAR_KEYS, GrammarValues(g))
  }

  function EngineName(code: string, version: string): string
  {
    code + "@" + version
  }

  function CodedValues(b: Behaviour): seq<Json>
    requires b.Coded?
  {
    [Str("coded"), Str(EngineName(b.engineCode, b.engineVersion)), GrammarCanonical(b.grammar), b.matchFormat,
     TextOrNull(b.afterblowMode), NumberOrNull(b.winBonus), OrNull(b.doublePenaltyFormula)]
  }

  function FormulaValues(b: Behaviour): seq<Json>
    requires b.Formula?
  {
    [Str("formula"), GrammarCanonical(b.grammar), b.matchFormat, TextOrNull(b.afterblowMode), OrNull(b.scoreFormula),
     Obj(b.constants), TiebreakersJson(b.tiebreakers), OrNull(b.doublePenaltyFormula), TextOrNull(b.decisionEdition)]
  }

  /** `canonicalizeScoringBehaviour`. */
  function Canonicalize(b: Behaviour): Json
  {
    if b.Coded? then Record(CODED_KEYS, CodedValues(b)) else Record(FORMULA_KEYS, FormulaValues(b))
  }

  // ---- well-formed ----

  /** The free values of a behaviour: each object in them holds a key once. */
  ghost predicate IsConfigured(b: Behaviour)
  {
    && WellFormed(b.matchFormat) && WellFormed(b.doublePenaltyFormula)
    && (b.Formula? ==> WellFormed(b.scoreFormula) && WellFormed(Obj(b.constants)))
  }

  lemma {:induction false} KeysAreDistinct()
    ensures Distinct(GRAMMAR_KEYS) && Distinct(CODED_KEYS) && Distinct(FORMULA_KEYS)
    ensures Distinct(TARGET_KEYS) && Distinct(TIEBREAKER_KEYS)
  {
  }

  lemma {:induction false} PairIsWellFormed(keys: seq<string>, v: Json, w: Json)
    requires Distinct(keys) && |keys| == 2 && WellFormed(v) && WellFormed(w)
    ensures WellFormed(Record(keys, [v, w]))
  {
    RecordIsWellFormed(keys, [v, w]);
  }

  lemma {:induction false} ListsAreWellFormed(targets: Option<seq<Target>>, ties: seq<Tiebreaker>)
    ensures WellFormed(TargetsJson(targets)) && WellFormed(TiebreakersJson(ties))
  {
    KeysAreDistinct();
    if targets.Some? {
      forall i | 0 <= i < |targets.value|
        ensures WellFormed(TargetJson(targets.value[i]))
      {
        PairIsWellFormed(TARGET_KEYS, Str(targets.value[i].name), Num(targets.value[i].value));
      }
    }
    forall i | 0 <= i < |ties|
      ensures WellFormed(TiebreakerJson(ties[i]))
    {
      PairIsWellFormed(TIEBREAKER_KEYS, Str(ties[i].variable), Str(ties[i].direction));
    }
  }

  lemma {:induction false} GrammarIsWellFormed(g: Grammar)
    ensures WellFormed(GrammarCanonical(g))
  {
    KeysAreDistinct();
    ListsAreWellFormed(SortedTargets(g.targets), []);
    RecordIsWellFormed(GRAMMAR_KEYS, GrammarValues(g));
  }

  lemma {:induction false} CanonicalIsWellFormed(b: Behaviour)
    requires IsConfigured(b)
    ensures Canonicalize(b).Obj? && WellFormed(Canonicalize(b))
  {
    KeysAreDistinct();
    GrammarIsWellFormed(b.grammar);
    if b.Coded? {
      RecordIsWellFormed(CODED_KEYS, CodedValues(b));
    } else {
      ListsAreWellFormed(None, b.tiebreakers);
      RecordIsWellFormed(FORMULA_KEYS, FormulaValues(b));
    }
  }

  // ---- the canonical names the behaviour ----

  /** One grammar: the same targets in some order, and the same afterblow. */
  predicate SameGrammar(g: Grammar, h: Grammar)
  {
    && SortedTargets(g.targets) == SortedTargets(h.targets)
    && g.hasAfterblow == h.hasAfterblow
    && g.afterblowValuation == h.afterblowValuation
    && g.afterblowFixedValue == h.afterblowFixedValue
  }

  /** One behaviour: the same parts, free values up to key order, and no value read as null. */
  ghost predicate SameBehaviour(a: Behaviour, b: Behaviour)
  {
    && a.Coded? == b.Coded?
    && SameGrammar(a.grammar, b.grammar)
    && Same(a.matchFormat, b.matchFormat)
    && a.afterblowMode == b.afterblowMode
    && Same(a.doublePenaltyFormula, b.doublePenaltyFormula)
    && if a.Coded? then SameCode(a, b) else SameFormula(a, b)
  }

  predicate SameCode(a: Behaviour, b: Behaviour)
    requires a.Coded? && b.Coded?
  {
    EngineName(a.engineCode, a.engineVersion) == EngineName(b.engineCode, b.engineVersion) && a.winBonus == b.winBonus
  }

  ghost predicate SameFormula(a: Behaviour, b: Behaviour)
    requires a.Formula? && b.Formula?
  {
    && Same(a.scoreFormula, b.scoreFormula)
    && Same(Obj(a.constants), Obj(b.constants))
    && a.tiebreakers == b.tiebreakers
    && a.decisionEdition == b.decisionEdition
  }

  lemma {:induction false} NumberSame(m: Option<NumText>, n: Option<NumText>)
    ensures Same(NumberOrNull(m), NumberOrNull(n)) <==> m == n
  {
  }

  lemma {:induction false} TextSame(s: Option<string>, t: Option<string>)
    ensures Same(TextOrNull(s), TextOrNull(t)) <==> s == t
  {
  }

  lemma {:induction false} PairSame(keys: seq<string>, vs: seq<Json>, ws: seq<Json>)
    requires Distinct(keys) && |keys| == |vs| == |ws| == 2
    ensures Same(Record(keys, vs), Record(keys, ws)) <==> Same(vs[0], ws[0]) && Same(vs[1], ws[1])
  {
    RecordsAreSame(keys, vs, ws);
  }

  lemma {:induction false} TargetSame(s: Target, t: Target)
    ensures Same(TargetJson(s), TargetJson(t)) <==> s == t
  {
    KeysAreDistinct();
    PairSame(TARGET_KEYS, [Str(s.name), Num(s.value)], [Str(t.name), Num(t.value)]);
  }

  lemma {:induction false} TargetListsSame(ts: seq<Target>, us: seq<Target>)
    ensures Same(TargetsJson(Some(ts)), TargetsJson(Some(us))) <==> ts == us
  {
    if |ts| == |us| {
      forall i | 0 <= i < |ts|
        ensures Same(TargetsJson(Some(ts)).items[i], TargetsJson(Some(us)).items[i]) <==> ts[i] == us[i]
      {
        TargetSame(ts[i], us[i]);
      }
    }
  }

  lemma {:induction false} TargetsSame(a: Option<seq<Target>>, b: Option<seq<Target>>)
    ensures Same(TargetsJson(a), TargetsJson(b)) <==> a == b
  {
    if a.Some? && b.Some? {
      TargetListsSame(a.value, b.value);
    }
  }

  lemma {:induction false} TiebreakersSame(a: seq<Tiebreaker>, b: seq<Tiebreaker>)
    ensures Same(TiebreakersJson(a), TiebreakersJson(b)) <==> a == b
  {
    KeysAreDistinct();
    if |a| == |b| {
      forall i | 0 <= i < |a|
        ensures Same(TiebreakersJson(a).items[i], TiebreakersJson(b).items[i]) <==> a[i] == b[i]
      {
        PairSame(TIEBREAKER_KEYS, [Str(a[i].variable), Str(a[i].direction)], [Str(b[i].variable), Str(b[i].direction)]);
      }
    }
  }

  lemma {:induction false} AllOfThem(holds: seq<bool>)
    ensures |holds| == 4 ==> ((forall i :: 0 <= i < 4 ==> holds[i]) <==> holds[0] && holds[1] && holds[2] && holds[3])
    ensures |holds| == 7 ==> ((forall i :: 0 <= i < 7 ==> holds[i]) <==>
              holds[0] && holds[1] && holds[2] && holds[3] && holds[4] && holds[5] && holds[6])
    ensures |holds| == 9 ==> ((forall i :: 0 <= i < 9 ==> holds[i]) <==>
              holds[0] && holds[1] && holds[2] && holds[3] && holds[4] && holds[5] && holds[6] && holds[7] && holds[8])
  {
  }

  /** Value by value, which are the same. */
  ghost function WhichAreSame(vs: seq<Json>, ws: seq<Json>): (holds: seq<bool>)
    requires |vs| == |ws|
    ensures |holds| == |vs| && forall i :: 0 <= i < |holds| ==> (holds[i] <==> Same(vs[i], ws[i]))
  {
    seq(|vs|, i requires 0 <= i < |vs| => Same(vs[i], ws[i]))
  }

  lemma {:induction false} ItemsAreSame(vs: seq<Json>, ws: seq<Json>)
    requires |vs| == |ws|
    ensures SameItems(vs, ws) <==> forall i :: 0 <= i < |vs| ==> WhichAreSame(vs, ws)[i]
  {
    var holds := WhichAreSame(vs, ws);
    assert forall i :: 0 <= i < |vs| ==> (holds[i] <==> Same(vs[i], ws[i]));
  }

  lemma {:induction false} FourSame(keys: seq<string>, vs: seq<Json>, ws: seq<Json>)
    requires Distinct(keys) && |keys| == |vs| == |ws| == 4
    ensures Same(Record(keys, vs), Record(keys, ws)) <==>
            && Same(vs[0], ws[0]) && Same(vs[1], ws[1]) && Same(vs[2], ws[2]) && Same(vs[3], ws[3])
  {
    RecordsAreSame(keys, vs, ws);
    ItemsAreSame(vs, ws);
    AllOfThem(WhichAreSame(vs, ws));
  }

  lemma {:induction false} SevenSame(keys: seq<string>, vs: seq<Json>, ws: seq<Json>)
    requires Distinct(keys) && |keys| == |vs| == |ws| == 7
    ensures Same(Record(keys, vs), Record(keys, ws)) <==>
            && Same(vs[0], ws[0]) && Same(vs[1], ws[1]) && Same(vs[2], ws[2]) && Same(vs[3], ws[3])
            && Same(vs[4], ws[4]) && Same(vs[5], ws[5]) && Same(vs[6], ws[6])
  {
    RecordsAreSame(keys, vs, ws);
    ItemsAreSame(vs, ws);
    AllOfThem(WhichAreSame(vs, ws));
  }

  lemma {:induction false} NineSame(keys: seq<string>, vs: seq<Json>, ws: seq<Json>)
    requires Distinct(keys) && |keys| == |vs| == |ws| == 9
    ensures Same(Record(keys, vs), Record(keys, ws)) <==>
            && Same(vs[0], ws[0]) && Same(vs[1], ws[1]) && Same(vs[2], ws[2]) && Same(vs[3], ws[3])
            && Same(vs[4], ws[4]) && Same(vs[5], ws[5]) && Same(vs[6], ws[6]) && Same(vs[7], ws[7])
            && Same(vs[8], ws[8])
  {
    RecordsAreSame(keys, vs, ws);
    ItemsAreSame(vs, ws);
    AllOfThem(WhichAreSame(vs, ws));
  }

  lemma {:induction false} OrNullSame(v: Json, w: Json)
    ensures Same(OrNull(v), OrNull(w)) <==> Same(v, w)
  {
  }

  lemma {:induction false} GrammarParts(g: Grammar, h: Grammar)
    ensures Same(GrammarCanonical(g), GrammarCanonical(h)) <==>
            && Same(TargetsJson(SortedTargets(g.targets)), TargetsJson(SortedTargets(h.targets)))
            && Same(Bool(g.hasAfterblow), Bool(h.hasAfterblow))
            && Same(TextOrNull(g.afterblowValuation), TextOrNull(h.afterblowValuation))
            && Same(NumberOrNull(g.afterblowFixedValue), NumberOrNull(h.afterblowFixedValue))
  {
    KeysAreDistinct();
    FourSame(GRAMMAR_KEYS, GrammarValues(g), GrammarValues(h));
  }

  lemma {:induction false} GrammarSame(g: Grammar, h: Grammar)
    ensures Same(GrammarCanonical(g), GrammarCanonical(h)) <==> SameGrammar(g, h)
  {
    GrammarParts(g, h);
    TargetsSame(SortedTargets(g.targets), SortedTargets(h.targets));
    TextSame(g.afterblowValuation, h.afterblowValuation);
    NumberSame(g.afterblowFixedValue, h.afterblowFixedValue);
  }

  lemma {:induction false} CodedParts(a: Behaviour, b: Behaviour)
    requires a.Coded? && b.Coded?
    ensures Same(Canonicalize(a), Canonicalize(b)) <==>
            && Same(Str(EngineName(a.engineCode, a.engineVersion)), Str(EngineName(b.engineCode, b.engineVersion)))
            && Same(GrammarCanonical(a.grammar), GrammarCanonical(b.grammar))
            && Same(a.matchFormat, b.matchFormat)
            && Same(TextOrNull(a.afterblowMode), TextOrNull(b.afterblowMode))
            && Same(NumberOrNull(a.winBonus), NumberOrNull(b.winBonus))
            && Same(OrNull(a.doublePenaltyFormula), OrNull(b.doublePenaltyFormula))
  {
    KeysAreDistinct();
    SevenSame(CODED_KEYS, CodedValues(a), CodedValues(b));
  }

  lemma {:induction false} CodedSame(a: Behaviour, b: Behaviour)
    requires a.Coded? && b.Coded?
    ensures Same(Canonicalize(a), Canonicalize(b)) <==> SameBehaviour(a, b)
  {
    CodedParts(a, b);
    GrammarSame(a.grammar, b.grammar);
    TextSame(a.afterblowMode, b.afterblowMode);
    NumberSame(a.winBonus, b.winBonus);
    OrNullSame(a.doublePenaltyFormula, b.doublePenaltyFormula);
  }

  lemma {:induction false} FormulaParts(a: Behaviour, b: Behaviour)
    requires a.Formula? && b.Formula?
    ensures Same(Canonicalize(a), Canonicalize(b)) <==>
            && Same(GrammarCanonical(a.grammar), GrammarCanonical(b.grammar))
            && Same(a.matchFormat, b.matchFormat)
            && Same(TextOrNull(a.afterblowMode), TextOrNull(b.afterblowMode))
            && Same(OrNull(a.scoreFormula), OrNull(b.scoreFormula))
            && Same(Obj(a.constants), Obj(b.constants))
            && Same(TiebreakersJson(a.tiebreakers), TiebreakersJson(b.tiebreakers))
            && Same(OrNull(a.doublePenaltyFormula), OrNull(b.doublePenaltyFormula))
            && Same(TextOrNull(a.decisionEdition), TextOrNull(b.decisionEdition))
  {
    KeysAreDistinct();
    NineSame(FORMULA_KEYS, FormulaValues(a), FormulaValues(b));
  }

  lemma {:induction false} FormulaSame(a: Behaviour, b: Behaviour)
    requires a.Formula? && b.Formula?
    ensures Same(Canonicalize(a), Canonicalize(b)) <==> SameBehaviour(a, b)
  {
    FormulaParts(a, b);
    GrammarSame(a.grammar, b.grammar);
    TextSame(a.afterblowMode, b.afterblowMode);
    OrNullSame(a.scoreFormula, b.scoreFormula);
    TiebreakersSame(a.tiebreakers, b.tiebreakers);
    OrNullSame(a.doublePenaltyFormula, b.doublePenaltyFormula);
    TextSame(a.decisionEdition, b.decisionEdition);
  }

  /** A coded and a formula ruleset never collide: their canonicals differ in `kind`. */
  lemma {:induction false} KindsNeverCollide(a: Behaviour, b: Behaviour)
    requires IsConfigured(a) && IsConfigured(b) && a.Coded? && b.Formula?
    ensures !Same(Canonicalize(a), Canonicalize(b)) && !Same(Canonicalize(b), Canonicalize(a))
  {
    KeysAreDistinct();
    CanonicalIsWellFormed(a);
    CanonicalIsWellFormed(b);
    RecordLook(CODED_KEYS, CodedValues(a), 0, []);
    RecordLook(FORMULA_KEYS, FormulaValues(b), 0, []);
    assert [CODED_KEYS[0]] + [] == ["kind"] == [FORMULA_KEYS[0]] + [];
    KindsPart(Canonicalize(a), Canonicalize(b), ["kind"], "coded", "formula");
  }

  lemma {:induction false} KindsPart(a: Json, b: Json, path: Path, s: string, t: string)
    requires WellFormed(a) && WellFormed(b) && Look(a, path) == Some(Str(s)) && Look(b, path) == Some(Str(t)) && s != t
    ensures !Same(a, b) && !Same(b, a)
  {
    if Same(b, a) {
      SameIsMutual(b, a);
    }
    if Same(a, b) {
      SameAgreesEverywhere(a, b, path);
    }
  }

  /** The text the content hash reads is one text for two behaviours if and only if they are one behaviour. */
  lemma {:induction false} HashedTextNamesTheBehaviour(a: Behaviour, b: Behaviour)
    requires IsConfigured(a) && IsConfigured(b)
    ensures Print(Canonicalize(a)) == Print(Canonicalize(b)) <==> SameBehaviour(a, b)
  {
    CanonicalIsWellFormed(a);
    CanonicalIsWellFormed(b);
    PrintIsIdentity(Canonicalize(a), Canonicalize(b));
    if a.Coded? && b.Coded? {
      CodedSame(a, b);
    } else if a.Formula? && b.Formula? {
      FormulaSame(a, b);
    } else if a.Coded? {
      KindsNeverCollide(a, b);
    } else {
      KindsNeverCollide(b, a);
    }
  }

  // ---- a reorder is not a change ----

  lemma {:induction false} NameBeforeIsOrder()
    ensures IsOrder(NameBefore)
  {
    forall s, t | NameBefore(s, t)
      ensures !NameBefore(t, s)
    {
      LessIsAsymmetric(s.name, t.name);
    }
    forall s, t, u | !NameBefore(t, s) && !NameBefore(u, t)
      ensures !NameBefore(u, s)
    {
      LessIsTotal(s.name, t.name);
      LessIsTotal(t.name, u.name);
      if NameBefore(s, t) && NameBefore(t, u) {
        LessIsTransitive(s.name, t.name, u.name);
      }
      LessIsAsymmetric(s.name, u.name);
      LessIsIrreflexive(s.name);
    }
  }

  /** Targets listed in another order, each name once, are one grammar. */
  lemma {:induction false} ReorderedTargetsAreTheSame(g: Grammar, ts: seq<Target>)
    requires g.targets.Some? && multiset(ts) == multiset(g.targets.value)
    requires forall s, t :: s in ts && t in ts && s.name == t.name ==> s == t
    ensures SameGrammar(g.(targets := Some(ts)), g)
  {
    NameBeforeIsOrder();
    forall s, t | s in ts && t in ts && !NameBefore(s, t) && !NameBefore(t, s)
      ensures s == t
    {
      LessIsTotal(s.name, t.name);
    }
    SortForgetsOrder(ts, g.targets.value, NameBefore);
  }
}
