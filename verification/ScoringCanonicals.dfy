// What the diff says of the canonicals the program builds: of any two, coded or formula.
module ScoringCanonicals {
  import opened Json
  import opened JsonPaths
  import opened JsonRecords
  import opened ContentHash
  import opened ScoringDiff

  /** No key on the way to a leaf holds a dot. */
  ghost predicate DotlessKeys(v: Json)
  {
    forall p :: IsLeaf(v, p) ==> Dotless(p)
  }

  /** The list reads every top key but two, and every key of the grammar. */
  ghost predicate ReadsKeys(listed: seq<Path>, keys: seq<string>)
  {
    forall i :: 0 <= i < |keys| && keys[i] != "grammar" && keys[i] != "matchFormat" ==> IsRead(listed, [keys[i]])
  }

  ghost predicate ReadsGrammar(listed: seq<Path>)
  {
    forall i :: 0 <= i < |GRAMMAR_KEYS| ==> IsRead(listed, ["grammar", GRAMMAR_KEYS[i]])
  }

  lemma {:induction false} Names(listed: seq<Path>, i: nat, path: Path)
    requires i < |listed| && listed[i] == path && path != [] && path[0] != "buttons"
    ensures IsRead(listed, path)
  {
    assert BUTTONS_CLEAN[0] == "buttons" && BUTTONS_AFTERBLOW[0] == "buttons";
    assert IsPrefix(listed[i], path);
  }

  lemma {:induction false} ListNamesEnds()
    ensures LISTED[0] == ["kind"] && LISTED[1] == ["engine"] && LISTED[2] == ["decisionEdition"]
    ensures LISTED[7] == ["afterblowMode"] && LISTED[26] == ["winBonus"] && LISTED[27] == ["doublePenaltyFormula"]
    ensures LISTED[28] == ["scoreFormula"] && LISTED[29] == ["constants"] && LISTED[30] == ["tiebreakers"]
  {
  }

  lemma {:induction false} ListNamesGrammar()
    ensures LISTED[3] == ["grammar", "targets"] && LISTED[4] == ["grammar", "hasAfterblow"]
    ensures LISTED[5] == ["grammar", "afterblowValuation"] && LISTED[6] == ["grammar", "afterblowFixedValue"]
  {
  }

  lemma {:induction false} CodedKeysAreRead(listed: seq<Path>)
    requires |listed| == 33
    requires listed[0] == ["kind"] && listed[1] == ["engine"] && listed[7] == ["afterblowMode"]
    requires listed[26] == ["winBonus"] && listed[27] == ["doublePenaltyFormula"]
    ensures ReadsKeys(listed, CODED_KEYS)
  {
    forall i | 0 <= i < 7 && i != 2 && i != 3
      ensures IsRead(listed, [CODED_KEYS[i]])
    {
      var at := [0, 1, 0, 0, 7, 26, 27];
      Names(listed, at[i], [CODED_KEYS[i]]);
    }
    assert CODED_KEYS[2] == "grammar" && CODED_KEYS[3] == "matchFormat";
  }

  lemma {:induction false} FormulaKeysAreRead(listed: seq<Path>)
    requires |listed| == 33
    requires listed[0] == ["kind"] && listed[2] == ["decisionEdition"] && listed[7] == ["afterblowMode"]
    requires listed[27] == ["doublePenaltyFormula"] && listed[28] == ["scoreFormula"]
    requires listed[29] == ["constants"] && listed[30] == ["tiebreakers"]
    ensures ReadsKeys(listed, FORMULA_KEYS)
  {
    forall i | 0 <= i < 9 && i != 1 && i != 2
      ensures IsRead(listed, [FORMULA_KEYS[i]])
    {
      var at := [0, 0, 0, 7, 28, 29, 30, 27, 2];
      Names(listed, at[i], [FORMULA_KEYS[i]]);
    }
    assert FORMULA_KEYS[1] == "grammar" && FORMULA_KEYS[2] == "matchFormat";
  }

  lemma {:induction false} GrammarKeysAreRead(listed: seq<Path>)
    requires |listed| == 33
    requires listed[3] == ["grammar", "targets"] && listed[4] == ["grammar", "hasAfterblow"]
    requires listed[5] == ["grammar", "afterblowValuation"] && listed[6] == ["grammar", "afterblowFixedValue"]
    ensures ReadsGrammar(listed)
  {
    forall i | 0 <= i < 4
      ensures IsRead(listed, ["grammar", GRAMMAR_KEYS[i]])
    {
      Names(listed, i + 3, ["grammar", GRAMMAR_KEYS[i]]);
    }
  }

  lemma {:induction false} ListReadsThem()
    ensures ReadsKeys(LISTED, CODED_KEYS) && ReadsKeys(LISTED, FORMULA_KEYS) && ReadsGrammar(LISTED)
  {
    ListNamesEnds();
    ListNamesGrammar();
    CodedKeysAreRead(LISTED);
    FormulaKeysAreRead(LISTED);
    GrammarKeysAreRead(LISTED);
  }

  lemma {:induction false} ReadGoesDown(listed: seq<Path>, path: Path, leaf: Path)
    requires IsRead(listed, path) && IsPrefix(path, leaf)
    ensures IsRead(listed, leaf)
  {
    var i :| 0 <= i < |listed| && listed[i] != BUTTONS_CLEAN && listed[i] != BUTTONS_AFTERBLOW && IsPrefix(listed[i], path);
    assert IsPrefix(listed[i], leaf);
  }

  /** A leaf of an object literal lies under one of its keys. */
  lemma {:induction false} RecordLeaf(keys: seq<string>, vs: seq<Json>, p: Path) returns (i: nat)
    requires Distinct(keys) && |keys| == |vs| && p != [] && IsLeaf(Record(keys, vs), p)
    ensures i < |keys| && p[0] == keys[i] && IsLeaf(vs[i], p[1..])
  {
    var r := Record(keys, vs);
    var f :| f in r.fields && f.key == p[0];
    i :| 0 <= i < |r.fields| && r.fields[i] == f;
    assert DistinctKeys(r.fields);
    GetFinds(r.fields, f);
  }

  lemma {:induction false} GrammarLeafIsRead(listed: seq<Path>, g: Grammar, p: Path)
    requires ReadsGrammar(listed) && |p| > 0 && p[0] == "grammar" && IsLeaf(GrammarCanonical(g), p[1..])
    ensures IsRead(listed, p)
  {
    KeysAreDistinct();
    assert p[1..] != [];
    var i := RecordLeaf(GRAMMAR_KEYS, GrammarValues(g), p[1..]);
    assert IsPrefix(["grammar", GRAMMAR_KEYS[i]], p);
    ReadGoesDown(listed, ["grammar", GRAMMAR_KEYS[i]], p);
  }

  lemma {:induction false} FormatLeafIsLookedAt(listed: seq<Path>, format: Json, p: Path)
    requires |p| > 0 && p[0] == "matchFormat" && DotlessKeys(format) && IsLeaf(format, p[1..]) && [] !in listed
    ensures IsRead(listed, p) || IsNamed(listed, p)
  {
    assert Dotless(p[1..]) && p == [p[0]] + p[1..] && '.' !in p[0];
    if Covered(listed, p) {
      var i :| 0 <= i < |listed| && IsPrefix(listed[i], p);
      assert listed[i] in listed && listed[i][0] == "matchFormat";
      assert BUTTONS_CLEAN[0] == "buttons" && BUTTONS_AFTERBLOW[0] == "buttons" && "buttons" != "matchFormat";
    }
  }

  /** An object with a grammar and a match format among keys the list reads can be named in full. */
  lemma {:induction false} RecordIsCanonical(listed: seq<Path>, keys: seq<string>, vs: seq<Json>, g: Grammar, format: Json)
    requires Distinct(keys) && |keys| == |vs| && WellFormed(Record(keys, vs))
    requires ReadsKeys(listed, keys) && ReadsGrammar(listed) && [] !in listed && DotlessKeys(format)
    requires forall i :: 0 <= i < |keys| && keys[i] == "grammar" ==> vs[i] == GrammarCanonical(g)
    requires forall i :: 0 <= i < |keys| && keys[i] == "matchFormat" ==> vs[i] == format
    ensures Canonical(listed, Record(keys, vs))
  {
    forall p | p != [] && IsLeaf(Record(keys, vs), p)
      ensures IsRead(listed, p) || IsNamed(listed, p)
    {
      var i := RecordLeaf(keys, vs, p);
      if keys[i] == "grammar" {
        GrammarLeafIsRead(listed, g, p);
      } else if keys[i] == "matchFormat" {
        FormatLeafIsLookedAt(listed, format, p);
      } else {
        assert IsPrefix([keys[i]], p);
        ReadGoesDown(listed, [keys[i]], p);
      }
    }
  }

  /** The canonical of every behaviour, coded or formula, is one the diff can name in full. */
  lemma {:induction false} BuiltCanonicalIsCanonical(b: Behaviour)
    requires IsConfigured(b) && DotlessKeys(b.matchFormat)
    ensures Canonical(LISTED, Canonicalize(b))
  {
    KeysAreDistinct();
    CanonicalIsWellFormed(b);
    ListIsAList();
    ListReadsThem();
    if b.Coded? {
      RecordIsCanonical(LISTED, CODED_KEYS, CodedValues(b), b.grammar, b.matchFormat);
    } else {
      RecordIsCanonical(LISTED, FORMULA_KEYS, FormulaValues(b), b.grammar, b.matchFormat);
    }
  }

  /**
   * Between any two behaviours, of one kind or of both, the diff is empty if and only if the content
   * hash reads one text, which is to say they are one behaviour, and the buttons give the same points.
   */
  lemma {:induction false} NoChangeIffSameBehaviour(a: Behaviour, b: Behaviour, was: ButtonValues, now: ButtonValues)
    requires IsConfigured(a) && IsConfigured(b) && DotlessKeys(a.matchFormat) && DotlessKeys(b.matchFormat)
    ensures var before, after := ScoringSide(Canonicalize(a), was), ScoringSide(Canonicalize(b), now);
            && (Changes(before, after) == [] <==>
                Print(Canonicalize(a)) == Print(Canonicalize(b)) && SameButtons(before, after))
            && (Changes(before, after) == [] <==> SameBehaviour(a, b) && SameButtons(before, after))
  {
    BuiltCanonicalIsCanonical(a);
    BuiltCanonicalIsCanonical(b);
    CanonicalsHideNothing(Canonicalize(a), Canonicalize(b));
    DiffSeesWhatTheHashSees(ScoringSide(Canonicalize(a), was), ScoringSide(Canonicalize(b), now));
    HashedTextNamesTheBehaviour(a, b);
  }

  // ---- the keys of a parsed match format ----

  const FORMAT_KEYS: seq<string> := [
    "pointCap", "scoringDirection", "timerMode", "timeLimitsSeconds", "softClockLimitSeconds", "maxDoubleHits",
    "maxDoubleHitOutcome", "bestOf", "levelAtTime"
  ]
  const PHASE_KEYS: seq<string> := ["pool", "swiss", "bracket", "finals"]

  /** An object with keys from one list alone, the objects in it with keys from another. */
  predicate KeyedBy(v: Json, keys: seq<string>, below: seq<string>)
  {
    v.Obj? && forall f :: f in v.fields ==> f.key in keys && (NonEmptyObject(f.value) ==> FlatBy(f.value, below))
  }

  predicate FlatBy(v: Json, keys: seq<string>)
    requires v.Obj?
  {
    forall f :: f in v.fields ==> f.key in keys && !NonEmptyObject(f.value)
  }

  ghost predicate DotlessAll(keys: seq<string>)
  {
    forall k :: k in keys ==> '.' !in k
  }

  lemma {:induction false} SchemaKeysAreDotless()
    ensures DotlessAll(FORMAT_KEYS) && DotlessAll(PHASE_KEYS)
  {
  }

  /** A match format as its schema leaves it: the schema's keys alone, with the phases as keys in three of them. */
  predicate ParsedFormat(v: Json)
  {
    KeyedBy(v, FORMAT_KEYS, PHASE_KEYS)
  }

  lemma {:induction false} ParsedFormatIsDotless(v: Json)
    requires ParsedFormat(v)
    ensures DotlessKeys(v)
  {
    SchemaKeysAreDotless();
    KeyedIsDotless(v, FORMAT_KEYS, PHASE_KEYS);
  }

  lemma {:induction false} KeyedIsDotless(v: Json, keys: seq<string>, below: seq<string>)
    requires KeyedBy(v, keys, below) && DotlessAll(keys) && DotlessAll(below)
    ensures DotlessKeys(v)
  {
    forall p | IsLeaf(v, p)
      ensures Dotless(p)
    {
      if |p| > 0 {
        GetIsAField(v.fields, p[0]);
        if |p| > 1 {
          FlatLeaf(Get(v.fields, p[0]), p[1..], below);
        }
      }
    }
  }

  lemma {:induction false} FlatLeaf(w: Json, q: Path, keys: seq<string>)
    requires q != [] && IsLeaf(w, q) && (NonEmptyObject(w) ==> FlatBy(w, keys)) && DotlessAll(keys)
    ensures Dotless(q)
  {
    GetIsAField(w.fields, q[0]);
    assert NonEmptyObject(w) && q[0] in keys;
    assert IsLeaf(Get(w.fields, q[0]), q[1..]) && !NonEmptyObject(Get(w.fields, q[0]));
    assert |q| == 1;
  }
}
