// What changed between two scoring canonicals (packages/rulesets/src/scoring-diff.ts).
module ScoringDiff {
  import opened Options
  import opened Json
  import opened JsonPaths
  import opened JsonText
  import opened Texts

  datatype ButtonValues = ButtonValues(clean: seq<Json>, afterblow: seq<Json>)

  datatype ScoringSide = ScoringSide(canonical: Json, buttons: ButtonValues)

  datatype RulesChange = RulesChange(path: string, before: Json, after: Json)

  /** The listed paths, in order, as their key segments. */
  const LISTED: seq<Path> := [
    ["kind"], ["engine"], ["decisionEdition"],
    ["grammar", "targets"], ["grammar", "hasAfterblow"],
    ["grammar", "afterblowValuation"], ["grammar", "afterblowFixedValue"],
    ["afterblowMode"],
    ["matchFormat", "pointCap"], ["matchFormat", "scoringDirection"], ["matchFormat", "timerMode"],
    ["matchFormat", "timeLimitsSeconds", "pool"], ["matchFormat", "timeLimitsSeconds", "swiss"],
    ["matchFormat", "timeLimitsSeconds", "bracket"], ["matchFormat", "timeLimitsSeconds", "finals"],
    ["matchFormat", "softClockLimitSeconds"],
    ["matchFormat", "maxDoubleHits"], ["matchFormat", "maxDoubleHitOutcome"],
    ["matchFormat", "bestOf", "pool"], ["matchFormat", "bestOf", "swiss"],
    ["matchFormat", "bestOf", "bracket"], ["matchFormat", "bestOf", "finals"],
    ["matchFormat", "levelAtTime", "pool"], ["matchFormat", "levelAtTime", "swiss"],
    ["matchFormat", "levelAtTime", "bracket"], ["matchFormat", "levelAtTime", "finals"],
    ["winBonus"], ["doublePenaltyFormula"], ["scoreFormula"], ["constants"], ["tiebreakers"],
    BUTTONS_CLEAN, BUTTONS_AFTERBLOW
  ]

  const BUTTONS_CLEAN: Path := ["buttons", "clean"]
  const BUTTONS_AFTERBLOW: Path := ["buttons", "afterblow"]

  /** `join('.')`. */
  function DottedName(path: Path): string
  {
    Join(path, ".")
  }

  /** A key present with no value reads as null; an absent one as undefined. */
  function ValueAt(root: Json, path: Path): Json
  {
    match Look(root, path)
    case None => Undefined
    case Some(v) => if v.Undefined? then Null else v
  }

  /** The walk of `valueAt`, one segment at a time. */
  method ReadAt(root: Json, path: Path) returns (value: Json)
    requires path != []
    ensures value == ValueAt(root, path)
  {
    value := root;
    var i := 0;
    assert path[0..] == path;
    while i < |path|
      invariant 0 <= i <= |path|
      invariant i > 0 ==> !value.Undefined?
      invariant i == 0 ==> value == root
      invariant ValueAt(root, path) == if i == |path| then value else ValueAt(value, path[i..])
    {
      if !value.Obj? || !HasKey(value.fields, path[i]) {
        return Undefined;
      }
      ghost var v := Get(value.fields, path[i]);
      assert path[i..][1..] == path[i + 1..];
      assert Look(value, path[i..]) == Look(v, path[i + 1..]);
      value := Get(value.fields, path[i]);
      if value.Undefined? {
        value := Null;
      }
      assert i + 1 == |path| ==> path[i + 1..] == [];
      assert i + 1 < |path| ==> Look(v, path[i + 1..]) == Look(value, path[i + 1..]);
      i := i + 1;
    }
  }

  predicate Differs(a: Json, b: Json)
  {
    a.Undefined? != b.Undefined? || Print(a) != Print(b)
  }

  function ValuesAt(before: ScoringSide, after: ScoringSide, path: Path): (Json, Json)
  {
    if path == BUTTONS_CLEAN then (Arr(before.buttons.clean), Arr(after.buttons.clean))
    else if path == BUTTONS_AFTERBLOW then (Arr(before.buttons.afterblow), Arr(after.buttons.afterblow))
    else (ValueAt(before.canonical, path), ValueAt(after.canonical, path))
  }

  /** One entry per listed path whose two values differ, in the order of the list. */
  function ListedChanges(before: ScoringSide, after: ScoringSide, paths: seq<Path>): seq<RulesChange>
  {
    if paths == [] then []
    else
      var earlier := ListedChanges(before, after, paths[..|paths| - 1]);
      var path := paths[|paths| - 1];
      var pair := ValuesAt(before, after, path);
      if Differs(pair.0, pair.1) then earlier + [RulesChange(DottedName(path), pair.0, pair.1)] else earlier
  }

  /** The dotted names of the uncovered leaves among the first `n`. */
  function SeenNames(listed: seq<Path>, leaves: seq<Path>, n: nat): set<string>
    requires n <= |leaves|
  {
    if n == 0 then {}
    else if Covered(listed, leaves[n - 1]) then SeenNames(listed, leaves, n - 1)
    else SeenNames(listed, leaves, n - 1) + {DottedName(leaves[n - 1])}
  }

  lemma {:induction false} NameIsSeen(listed: seq<Path>, leaves: seq<Path>, n: nat, name: string)
    requires n <= |leaves|
    ensures name in SeenNames(listed, leaves, n)
       <==> exists j :: 0 <= j < n && !Covered(listed, leaves[j]) && DottedName(leaves[j]) == name
  {
    if n > 0 {
      NameIsSeen(listed, leaves, n - 1, name);
    }
  }

  /** The leaf that speaks for its dotted name: the first uncovered one that is written so. */
  predicate Deciding(listed: seq<Path>, leaves: seq<Path>, n: nat)
    requires n < |leaves|
  {
    !Covered(listed, leaves[n]) && DottedName(leaves[n]) !in SeenNames(listed, leaves, n)
  }

  /**
   * A leaf whose two values are written in the `unknown` entry. JavaScript takes an assignment to
   * `__proto__` as a new prototype and not as a key, so that name never holds a value.
   */
  predicate Reported(listed: seq<Path>, before: Json, after: Json, leaves: seq<Path>, n: nat)
    requires n < |leaves|
  {
    && Deciding(listed, leaves, n)
    && Differs(ValueAt(before, leaves[n]), ValueAt(after, leaves[n]))
    && DottedName(leaves[n]) != "__proto__"
  }

  /** What one side held at each reported leaf among the first `n`, by dotted name. */
  function Side(listed: seq<Path>, before: Json, after: Json, leaves: seq<Path>, n: nat, side: Json): seq<Field>
    requires n <= |leaves|
  {
    if n == 0 then []
    else
      var earlier := Side(listed, before, after, leaves, n - 1, side);
      if Reported(listed, before, after, leaves, n - 1)
      then earlier + [Field(DottedName(leaves[n - 1]), ValueAt(side, leaves[n - 1]))]
      else earlier
  }

  function UnlistedChange(listed: seq<Path>, before: Json, after: Json): seq<RulesChange>
  {
    var leaves := Leaves(before, []) + Leaves(after, []);
    var was := Side(listed, before, after, leaves, |leaves|, before);
    var now := Side(listed, before, after, leaves, |leaves|, after);
    if was == [] then [] else [RulesChange("unknown", Obj(was), Obj(now))]
  }

  function Changes(before: ScoringSide, after: ScoringSide): seq<RulesChange>
  {
    ListedChanges(before, after, LISTED) + UnlistedChange(LISTED, before.canonical, after.canonical)
  }

  method FindUnlistedChange(listed: seq<Path>, before: Json, after: Json) returns (change: Option<RulesChange>)
    ensures UnlistedChange(listed, before, after) == if change.Some? then [change.value] else []
  {
    var leaves := LeavesOf(before, [], []);
    leaves := LeavesOf(after, [], leaves);
    assert leaves == Leaves(before, []) + Leaves(after, []);
    var was, now := NoteLeaves(listed, before, after, leaves);
    SidesGoTogether(listed, before, after, leaves, |leaves|);
    change := if |was| == 0 then None else Some(RulesChange("unknown", Obj(was), Obj(now)));
  }

  /** The loop over the leaves: each new uncovered name is noted once. */
  method NoteLeaves(listed: seq<Path>, before: Json, after: Json, leaves: seq<Path>)
    returns (was: seq<Field>, now: seq<Field>)
    ensures was == Side(listed, before, after, leaves, |leaves|, before)
    ensures now == Side(listed, before, after, leaves, |leaves|, after)
  {
    var seen: set<string> := {};
    was, now := [], [];
    for n := 0 to |leaves|
      invariant seen == SeenNames(listed, leaves, n)
      invariant was == Side(listed, before, after, leaves, n, before)
      invariant now == Side(listed, before, after, leaves, n, after)
    {
      var name := DottedName(leaves[n]);
      assert Deciding(listed, leaves, n) <==> name !in seen && !Covered(listed, leaves[n]);
      if name !in seen && !Covered(listed, leaves[n]) {
        seen := seen + {name};
        was, now := NoteLeaf(before, after, leaves[n], name, was, now);
      }
    }
  }

  method NoteLeaf(before: Json, after: Json, leaf: Path, name: string, was: seq<Field>, now: seq<Field>)
    returns (was': seq<Field>, now': seq<Field>)
    ensures if Differs(ValueAt(before, leaf), ValueAt(after, leaf)) && name != "__proto__"
            then was' == was + [Field(name, ValueAt(before, leaf))] && now' == now + [Field(name, ValueAt(after, leaf))]
            else was' == was && now' == now
  {
    was', now' := was, now;
    var a := ReadAtLeaf(before, leaf);
    var b := ReadAtLeaf(after, leaf);
    if Differs(a, b) && name != "__proto__" {
      was' := was + [Field(name, a)];
      now' := now + [Field(name, b)];
    }
  }

  method ReadAtLeaf(root: Json, path: Path) returns (value: Json)
    ensures value == ValueAt(root, path)
  {
    if |path| == 0 {
      value := if root.Undefined? then Null else root;
    } else {
      value := ReadAt(root, path);
    }
  }

  lemma {:induction false} SidesGoTogether(listed: seq<Path>, before: Json, after: Json, leaves: seq<Path>, n: nat)
    requires n <= |leaves|
    ensures |Side(listed, before, after, leaves, n, before)| == |Side(listed, before, after, leaves, n, after)|
  {
    if n > 0 {
      SidesGoTogether(listed, before, after, leaves, n - 1);
    }
  }

  method FindListedChanges(before: ScoringSide, after: ScoringSide, paths: seq<Path>)
    returns (changes: seq<RulesChange>)
    ensures changes == ListedChanges(before, after, paths)
  {
    changes := [];
    for i := 0 to |paths|
      invariant changes == ListedChanges(before, after, paths[..i])
    {
      var pair := ValuesAt(before, after, paths[i]);
      assert paths[..i + 1][..i] == paths[..i];
      if Differs(pair.0, pair.1) {
        changes := changes + [RulesChange(DottedName(paths[i]), pair.0, pair.1)];
      }
    }
    assert paths[..|paths|] == paths;
  }

  method FindChanges(before: ScoringSide, after: ScoringSide) returns (changes: seq<RulesChange>)
    ensures changes == Changes(before, after)
  {
    changes := FindListedChanges(before, after, LISTED);
    var unknown := FindUnlistedChange(LISTED, before.canonical, after.canonical);
    if unknown.Some? {
      changes := changes + [unknown.value];
    }
  }

  // ---- nothing the hash sees escapes ----

  predicate Dotless(path: Path)
  {
    forall i :: 0 <= i < |path| ==> '.' !in path[i]
  }

  /** The text after the first segment of a dotted name. */
  function NameTail(path: Path): string
    requires path != []
  {
    if |path| == 1 then "" else "." + DottedName(path[1..])
  }

  /** A segment without a dot ends at the first dot, or at the end. */
  lemma {:induction false} FirstSegment(k: string, u: string, h: string, w: string)
    requires '.' !in k && '.' !in h && k + u == h + w
    requires u == "" || u[0] == '.'
    requires w == "" || w[0] == '.'
    ensures k == h && u == w
  {
    var l, r := k + u, h + w;
    assert forall i :: 0 <= i < |k| ==> l[i] == k[i];
    assert forall i :: 0 <= i < |h| ==> r[i] == h[i];
    assert |k| < |l| ==> l[|k|] == '.';
    assert |h| < |r| ==> r[|h|] == '.';
    Peel(k, u, h, w);
  }

  lemma {:induction false} DottedNameIsInjective(p: Path, q: Path)
    requires p != [] && q != [] && Dotless(p) && Dotless(q) && DottedName(p) == DottedName(q)
    ensures p == q
  {
    NameStarts(p);
    NameStarts(q);
    FirstSegment(p[0], NameTail(p), q[0], NameTail(q));
    if |p| > 1 {
      Peel(".", DottedName(p[1..]), ".", DottedName(q[1..]));
      assert Dotless(p[1..]) && Dotless(q[1..]);
      DottedNameIsInjective(p[1..], q[1..]);
      assert p == [p[0]] + p[1..] && q == [q[0]] + q[1..];
    }
  }

  lemma {:induction false} NameStarts(path: Path)
    requires path != []
    ensures DottedName(path) == path[0] + NameTail(path)
    ensures if |path| == 1 then NameTail(path) == "" else NameTail(path)[0] == '.'
  {
  }

  lemma {:induction false} DiffersIsDisagreeing(a: Json, b: Json, path: Path)
    requires WellFormed(a) && WellFormed(b)
    ensures Differs(ValueAt(a, path), ValueAt(b, path)) <==> !AgreeAt(a, b, path)
  {
    if Look(a, path).Some? && Look(b, path).Some? {
      LookIsWellFormed(a, path);
      LookIsWellFormed(b, path);
      PrintIsIdentity(Look(a, path).value, Look(b, path).value);
    }
  }

  lemma {:induction false} NothingListed(before: ScoringSide, after: ScoringSide, paths: seq<Path>)
    ensures ListedChanges(before, after, paths) == []
       <==> forall i :: 0 <= i < |paths| ==>
              !Differs(ValuesAt(before, after, paths[i]).0, ValuesAt(before, after, paths[i]).1)
  {
    if paths != [] {
      NothingListed(before, after, paths[..|paths| - 1]);
      assert forall i :: 0 <= i < |paths| - 1 ==> paths[..|paths| - 1][i] == paths[i];
    }
  }

  lemma {:induction false} NothingReported(listed: seq<Path>, before: Json, after: Json, leaves: seq<Path>, n: nat)
    requires n <= |leaves|
    requires forall i :: 0 <= i < n ==> !Reported(listed, before, after, leaves, i)
    ensures Side(listed, before, after, leaves, n, before) == []
  {
    if n > 0 {
      NothingReported(listed, before, after, leaves, n - 1);
    }
  }

  lemma {:induction false} ReportedShows(listed: seq<Path>, before: Json, after: Json, leaves: seq<Path>, n: nat, i: nat)
    requires i < n <= |leaves| && Reported(listed, before, after, leaves, i)
    ensures Side(listed, before, after, leaves, n, before) != []
  {
    if i < n - 1 {
      ReportedShows(listed, before, after, leaves, n - 1, i);
    }
  }

  // ---- exactly what the diff cannot see ----

  function LeavesOfBoth(a: Json, b: Json): seq<Path>
  {
    Leaves(a, []) + Leaves(b, [])
  }

  /** A listed path that is read from the canonicals leads to the leaf, or to a tree around it. */
  predicate IsRead(listed: seq<Path>, leaf: Path)
  {
    exists i :: 0 <= i < |listed| && listed[i] != BUTTONS_CLEAN && listed[i] != BUTTONS_AFTERBLOW && IsPrefix(listed[i], leaf)
  }

  /** The leaf is the first of the two sides' leaves to be written with its dotted name. */
  predicate SpeaksForItself(listed: seq<Path>, leaves: seq<Path>, leaf: Path)
  {
    exists n :: 0 <= n < |leaves| && leaves[n] == leaf && Deciding(listed, leaves, n)
  }

  /**
   * Nobody looks at the leaf: no path of the list reads it, and it is under a button path, or has the
   * one name an object does not keep, or another leaf speaks for its name. It is asked of the keys of
   * the two sides alone, not of their values.
   */
  predicate Hidden(listed: seq<Path>, leaves: seq<Path>, leaf: Path)
  {
    && !IsRead(listed, leaf)
    && (Covered(listed, leaf) || DottedName(leaf) == "__proto__" || !SpeaksForItself(listed, leaves, leaf))
  }

  ghost predicate SameButtons(before: ScoringSide, after: ScoringSide)
  {
    && Print(Arr(before.buttons.clean)) == Print(Arr(after.buttons.clean))
    && Print(Arr(before.buttons.afterblow)) == Print(Arr(after.buttons.afterblow))
  }

  /** A leaf of either side at which the two sides differ. */
  ghost predicate Moved(a: Json, b: Json, leaf: Path)
  {
    leaf != [] && (IsLeaf(a, leaf) || IsLeaf(b, leaf)) && !AgreeAt(a, b, leaf)
  }

  /** A list that names both button paths and no empty one. */
  ghost predicate IsList(listed: seq<Path>)
  {
    BUTTONS_CLEAN in listed && BUTTONS_AFTERBLOW in listed && [] !in listed
  }

  lemma {:induction false} LeafIsOfBoth(a: Json, b: Json, leaf: Path)
    requires WellFormed(a) && WellFormed(b)
    ensures leaf in LeavesOfBoth(a, b) <==> leaf != [] && (IsLeaf(a, leaf) || IsLeaf(b, leaf))
  {
    LeavesAreTheLeaves(a, [], leaf);
    LeavesAreTheLeaves(b, [], leaf);
    assert [] + leaf == leaf;
  }

  /** No listed path finds a change. */
  ghost predicate ListIsQuiet(before: ScoringSide, after: ScoringSide, listed: seq<Path>)
  {
    forall i :: 0 <= i < |listed| ==> !Differs(ValuesAt(before, after, listed[i]).0, ValuesAt(before, after, listed[i]).1)
  }

  /** No leaf is reported. */
  ghost predicate LeavesAreQuiet(listed: seq<Path>, a: Json, b: Json)
  {
    forall n :: 0 <= n < |LeavesOfBoth(a, b)| ==> !Reported(listed, a, b, LeavesOfBoth(a, b), n)
  }

  lemma {:induction false} QuietIsNoChange(before: ScoringSide, after: ScoringSide, listed: seq<Path>)
    ensures ListedChanges(before, after, listed) == [] <==> ListIsQuiet(before, after, listed)
    ensures UnlistedChange(listed, before.canonical, after.canonical) == [] <==>
            LeavesAreQuiet(listed, before.canonical, after.canonical)
  {
    var a, b := before.canonical, after.canonical;
    var leaves := LeavesOfBoth(a, b);
    NothingListed(before, after, listed);
    if LeavesAreQuiet(listed, a, b) {
      NothingReported(listed, a, b, leaves, |leaves|);
    } else {
      var n :| 0 <= n < |leaves| && Reported(listed, a, b, leaves, n);
      ReportedShows(listed, a, b, leaves, |leaves|, n);
    }
  }

  /** Where the list finds nothing, no leaf it reads has moved. */
  lemma {:induction false} ReadLeafAgrees(before: ScoringSide, after: ScoringSide, listed: seq<Path>, leaf: Path)
    requires WellFormed(before.canonical) && WellFormed(after.canonical)
    requires ListIsQuiet(before, after, listed) && IsRead(listed, leaf)
    ensures AgreeAt(before.canonical, after.canonical, leaf)
  {
    var i :| 0 <= i < |listed| && listed[i] != BUTTONS_CLEAN && listed[i] != BUTTONS_AFTERBLOW && IsPrefix(listed[i], leaf);
    assert !Differs(ValuesAt(before, after, listed[i]).0, ValuesAt(before, after, listed[i]).1);
    DiffersIsDisagreeing(before.canonical, after.canonical, listed[i]);
    AgreeingGoesDown(before.canonical, after.canonical, listed[i], leaf);
  }

  lemma {:induction false} MovedIsHidden(before: ScoringSide, after: ScoringSide, listed: seq<Path>, leaf: Path)
    requires WellFormed(before.canonical) && WellFormed(after.canonical) && Moved(before.canonical, after.canonical, leaf)
    requires ListIsQuiet(before, after, listed) && LeavesAreQuiet(listed, before.canonical, after.canonical)
    ensures Hidden(listed, LeavesOfBoth(before.canonical, after.canonical), leaf)
  {
    var a, b := before.canonical, after.canonical;
    if IsRead(listed, leaf) {
      ReadLeafAgrees(before, after, listed, leaf);
    }
    DiffersIsDisagreeing(a, b, leaf);
    forall n | 0 <= n < |LeavesOfBoth(a, b)| && LeavesOfBoth(a, b)[n] == leaf
      ensures Deciding(listed, LeavesOfBoth(a, b), n) ==> DottedName(leaf) == "__proto__"
    {
      assert !Reported(listed, a, b, LeavesOfBoth(a, b), n);
    }
  }

  /** Where only hidden leaves moved, no leaf is reported. */
  lemma {:induction false} HiddenIsNotReported(listed: seq<Path>, a: Json, b: Json)
    requires WellFormed(a) && WellFormed(b)
    requires forall p :: Moved(a, b, p) ==> Hidden(listed, LeavesOfBoth(a, b), p)
    ensures LeavesAreQuiet(listed, a, b)
  {
    var leaves := LeavesOfBoth(a, b);
    forall n | 0 <= n < |leaves|
      ensures !Reported(listed, a, b, leaves, n)
    {
      var p := leaves[n];
      LeafIsOfBoth(a, b, p);
      DiffersIsDisagreeing(a, b, p);
      assert Differs(ValueAt(a, p), ValueAt(b, p)) ==> Moved(a, b, p);
      assert Deciding(listed, leaves, n) ==> SpeaksForItself(listed, leaves, p);
    }
  }

  /** Where only hidden leaves moved, and the buttons agree, the list finds nothing. */
  lemma {:induction false} HiddenIsNotListed(before: ScoringSide, after: ScoringSide, listed: seq<Path>)
    requires WellFormed(before.canonical) && WellFormed(after.canonical) && IsList(listed) && SameButtons(before, after)
    requires forall p :: Moved(before.canonical, after.canonical, p) ==>
                           Hidden(listed, LeavesOfBoth(before.canonical, after.canonical), p)
    ensures ListIsQuiet(before, after, listed)
  {
    var a, b := before.canonical, after.canonical;
    forall i | 0 <= i < |listed|
      ensures !Differs(ValuesAt(before, after, listed[i]).0, ValuesAt(before, after, listed[i]).1)
    {
      var path := listed[i];
      if path != BUTTONS_CLEAN && path != BUTTONS_AFTERBLOW {
        forall p | IsPrefix(path, p) && (IsLeaf(a, p) || IsLeaf(b, p))
          ensures AgreeAt(a, b, p)
        {
          assert IsRead(listed, p) && path in listed;
          assert !Moved(a, b, p);
        }
        LeavesDecideThePath(a, b, path);
        DiffersIsDisagreeing(a, b, path);
      }
    }
  }

  lemma {:induction false} QuietButtonsAgree(before: ScoringSide, after: ScoringSide, listed: seq<Path>)
    requires IsList(listed) && ListIsQuiet(before, after, listed)
    ensures SameButtons(before, after)
  {
    var i :| 0 <= i < |listed| && listed[i] == BUTTONS_CLEAN;
    var j :| 0 <= j < |listed| && listed[j] == BUTTONS_AFTERBLOW;
    assert !Differs(ValuesAt(before, after, listed[i]).0, ValuesAt(before, after, listed[i]).1);
    assert !Differs(ValuesAt(before, after, listed[j]).0, ValuesAt(before, after, listed[j]).1);
  }

  lemma {:induction false} ListIsAList()
    ensures IsList(LISTED)
  {
    assert LISTED[31] == BUTTONS_CLEAN && LISTED[32] == BUTTONS_AFTERBLOW;
    assert forall i :: 0 <= i < |LISTED| ==> |LISTED[i]| > 0;
  }

  /**
   * For any two canonicals whatever: the diff is empty exactly when the buttons give the same points
   * and every leaf that moved is one nobody looks at.
   */
  lemma {:induction false} DiffMissesExactlyTheHidden(before: ScoringSide, after: ScoringSide)
    requires WellFormed(before.canonical) && WellFormed(after.canonical)
    ensures Changes(before, after) == [] <==>
            && SameButtons(before, after)
            && forall p :: Moved(before.canonical, after.canonical, p) ==>
                             Hidden(LISTED, LeavesOfBoth(before.canonical, after.canonical), p)
  {
    ListIsAList();
    MissesExactlyTheHidden(before, after, LISTED);
  }

  lemma {:induction false} MissesExactlyTheHidden(before: ScoringSide, after: ScoringSide, listed: seq<Path>)
    requires WellFormed(before.canonical) && WellFormed(after.canonical) && IsList(listed)
    ensures ListedChanges(before, after, listed) + UnlistedChange(listed, before.canonical, after.canonical) == [] <==>
            && SameButtons(before, after)
            && forall p :: Moved(before.canonical, after.canonical, p) ==>
                             Hidden(listed, LeavesOfBoth(before.canonical, after.canonical), p)
  {
    var a, b := before.canonical, after.canonical;
    QuietIsNoChange(before, after, listed);
    if ListIsQuiet(before, after, listed) && LeavesAreQuiet(listed, a, b) {
      QuietButtonsAgree(before, after, listed);
      forall p | Moved(a, b, p)
        ensures Hidden(listed, LeavesOfBoth(a, b), p)
      {
        MovedIsHidden(before, after, listed, p);
      }
    }
    if SameButtons(before, after) && forall p :: Moved(a, b, p) ==> Hidden(listed, LeavesOfBoth(a, b), p) {
      HiddenIsNotReported(listed, a, b);
      HiddenIsNotListed(before, after, listed);
    }
  }

  /** Every leaf of the two sides is looked at. */
  ghost predicate NothingHidden(a: Json, b: Json)
  {
    forall p :: p != [] && (IsLeaf(a, p) || IsLeaf(b, p)) ==> !Hidden(LISTED, LeavesOfBoth(a, b), p)
  }

  lemma {:induction false} NothingMovedIsSame(a: Json, b: Json)
    requires a.Obj? && b.Obj? && WellFormed(a) && WellFormed(b)
    ensures (forall p :: !Moved(a, b, p)) <==> Print(a) == Print(b)
  {
    PrintIsIdentity(a, b);
    if Same(a, b) {
      forall p
        ensures !Moved(a, b, p)
      {
        SameAgreesEverywhere(a, b, p);
      }
    } else {
      if forall p :: !Moved(a, b, p) {
        assert forall p :: p != [] && (IsLeaf(a, p) || IsLeaf(b, p)) ==> Moved(a, b, p) || AgreeAt(a, b, p);
        AgreeingAtLeavesIsSame(a, b);
      }
    }
  }

  /**
   * Where nothing is hidden, a change the hash sees is a change the diff names, and nothing else is:
   * the list of changes is empty exactly when the two canonicals have one text and every button gives
   * the same points.
   */
  lemma {:induction false} DiffSeesWhatTheHashSees(before: ScoringSide, after: ScoringSide)
    requires before.canonical.Obj? && WellFormed(before.canonical) && after.canonical.Obj? && WellFormed(after.canonical)
    requires NothingHidden(before.canonical, after.canonical)
    ensures Changes(before, after) == [] <==> Print(before.canonical) == Print(after.canonical) && SameButtons(before, after)
  {
    DiffMissesExactlyTheHidden(before, after);
    NothingMovedIsSame(before.canonical, after.canonical);
    assert forall p :: Moved(before.canonical, after.canonical, p) ==>
        !Hidden(LISTED, LeavesOfBoth(before.canonical, after.canonical), p);
  }

  /**
   * An object the diff can name in full: each leaf is read through the list, or its dotted name is one
   * no other leaf can be written as.
   */
  ghost predicate Canonical(listed: seq<Path>, v: Json)
  {
    && v.Obj? && WellFormed(v)
    && forall p :: p != [] && IsLeaf(v, p) ==> IsRead(listed, p) || IsNamed(listed, p)
  }

  predicate IsNamed(listed: seq<Path>, leaf: Path)
  {
    !Covered(listed, leaf) && Dotless(leaf) && leaf != ["__proto__"]
  }

  lemma {:induction false} NamedSpeaksForItself(listed: seq<Path>, leaves: seq<Path>, n: nat)
    requires n < |leaves| && IsNamed(listed, leaves[n])
    requires forall m :: 0 <= m < |leaves| ==> leaves[m] != [] && (IsRead(listed, leaves[m]) || IsNamed(listed, leaves[m]))
    ensures SpeaksForItself(listed, leaves, leaves[n])
    decreases n
  {
    if !Deciding(listed, leaves, n) {
      NameIsSeen(listed, leaves, n, DottedName(leaves[n]));
      var m :| 0 <= m < n && !Covered(listed, leaves[m]) && DottedName(leaves[m]) == DottedName(leaves[n]);
      assert !IsRead(listed, leaves[m]);
      DottedNameIsInjective(leaves[m], leaves[n]);
      NamedSpeaksForItself(listed, leaves, m);
    }
  }

  lemma {:induction false} NamedIsLookedAt(listed: seq<Path>, a: Json, b: Json, leaf: Path)
    requires Canonical(listed, a) && Canonical(listed, b) && leaf != [] && (IsLeaf(a, leaf) || IsLeaf(b, leaf))
    ensures !Hidden(listed, LeavesOfBoth(a, b), leaf)
  {
    if !IsRead(listed, leaf) {
      var leaves := LeavesOfBoth(a, b);
      LeafIsOfBoth(a, b, leaf);
      var n :| 0 <= n < |leaves| && leaves[n] == leaf;
      forall m | 0 <= m < |leaves|
        ensures leaves[m] != [] && (IsRead(listed, leaves[m]) || IsNamed(listed, leaves[m]))
      {
        LeafIsOfBoth(a, b, leaves[m]);
      }
      NamedSpeaksForItself(listed, leaves, n);
      if DottedName(leaf) == DottedName(["__proto__"]) {
        DottedNameIsInjective(leaf, ["__proto__"]);
      }
    }
  }

  lemma {:induction false} CanonicalsHideNothing(a: Json, b: Json)
    requires Canonical(LISTED, a) && Canonical(LISTED, b)
    ensures NothingHidden(a, b)
  {
    forall p | p != [] && (IsLeaf(a, p) || IsLeaf(b, p))
      ensures !Hidden(LISTED, LeavesOfBoth(a, b), p)
    {
      NamedIsLookedAt(LISTED, a, b, p);
    }
  }

  // ---- a hidden leaf does hide a change ----

  /** The one leaf that moves when a leaf is exchanged. */
  lemma {:induction false} OnlyTheExchangedMoves(a: Json, p: Path, x: Json, q: Path)
    requires a.Obj? && WellFormed(a) && p != [] && IsLeaf(a, p) && WellFormed(x) && !NonEmptyObject(x)
    requires Moved(a, SetLeaf(a, p, x), q)
    ensures q == p
  {
    var b := SetLeaf(a, p, x);
    SetLeafIsWellFormed(a, p, x);
    SetLeafKeepsLeaves(a, p, x, []);
    LeavesAreTheLeaves(a, [], q);
    LeavesAreTheLeaves(b, [], q);
    assert [] + q == q;
    SetLeafLook(a, p, x, q);
    if q != p {
      LeafIsThere(a, q);
      LookIsWellFormed(a, q);
      SameIsReflexive(Look(a, q).value);
    }
  }

  /**
   * For every canonical with a hidden leaf: give that leaf another value, and the diff is empty while
   * the text is another.
   */
  lemma {:induction false} HiddenLeafEscapes(a: Json, p: Path, x: Json, buttons: ButtonValues)
    requires a.Obj? && WellFormed(a) && p != [] && IsLeaf(a, p) && WellFormed(x) && !NonEmptyObject(x)
    requires Hidden(LISTED, LeavesOfBoth(a, a), p)
    ensures var b := SetLeaf(a, p, x);
            && b.Obj? && WellFormed(b) && Leaves(b, []) == Leaves(a, [])
            && Changes(ScoringSide(a, buttons), ScoringSide(b, buttons)) == []
            && (Print(a) == Print(b) <==> Print(ValueAt(a, p)) == Print(x))
  {
    var b := SetLeaf(a, p, x);
    SetLeafIsWellFormed(a, p, x);
    SetLeafKeepsLeaves(a, p, x, []);
    forall q | Moved(a, b, q)
      ensures q == p
    {
      OnlyTheExchangedMoves(a, p, x, q);
    }
    DiffMissesExactlyTheHidden(ScoringSide(a, buttons), ScoringSide(b, buttons));
    SetLeafLook(a, p, x, p);
    LeafIsThere(a, p);
    LookIsWellFormed(a, p);
    PrintIsIdentity(Look(a, p).value, x);
    PrintIsIdentity(a, b);
    if Same(a, b) {
      SameAgreesEverywhere(a, b, p);
    } else {
      NothingMovedIsSame(a, b);
      var q :| Moved(a, b, q);
    }
  }

  /** Other values, or the same, under the keys of `a`. */
  ghost predicate SameKeys(a: Json, b: Json)
  {
    b.Obj? && WellFormed(b) && Leaves(b, []) == Leaves(a, [])
  }

  /** The diff sees every change between values under the keys of `a`. */
  ghost predicate SeesEveryChangeUnder(a: Json, buttons: ButtonValues)
  {
    forall b: Json :: SameKeys(a, b) ==>
      (Changes(ScoringSide(a, buttons), ScoringSide(b, buttons)) == [] ==> Print(a) == Print(b))
  }

  /** Nothing hidden is the exact guard: with the keys of `a` the diff sees every change if and only if no leaf is hidden. */
  lemma {:induction false} SeesAllUnlessHidden(a: Json, buttons: ButtonValues)
    requires a.Obj? && WellFormed(a)
    ensures SeesEveryChangeUnder(a, buttons) <==> NothingHidden(a, a)
  {
    if NothingHidden(a, a) {
      forall b: Json | SameKeys(a, b) && Changes(ScoringSide(a, buttons), ScoringSide(b, buttons)) == []
        ensures Print(a) == Print(b)
      {
        SameLeavesNothingHidden(a, b);
        DiffSeesWhatTheHashSees(ScoringSide(a, buttons), ScoringSide(b, buttons));
      }
    } else {
      var p :| p != [] && IsLeaf(a, p) && Hidden(LISTED, LeavesOfBoth(a, a), p);
      var x := if ValueAt(a, p) == Bool(true) then Bool(false) else Bool(true);
      HiddenLeafEscapes(a, p, x, buttons);
      LeafIsThere(a, p);
      LookIsWellFormed(a, p);
      PrintIsIdentity(Look(a, p).value, x);
      assert SameKeys(a, SetLeaf(a, p, x));
    }
  }

  lemma {:induction false} SameLeavesNothingHidden(a: Json, b: Json)
    requires WellFormed(a) && WellFormed(b) && Leaves(a, []) == Leaves(b, []) && NothingHidden(a, a)
    ensures NothingHidden(a, b)
  {
    forall p | p != [] && (IsLeaf(a, p) || IsLeaf(b, p))
      ensures !Hidden(LISTED, LeavesOfBoth(a, b), p)
    {
      LeafIsOfBoth(a, b, p);
      LeafIsOfBoth(a, a, p);
    }
  }

  // ---- the three ways to be hidden ----

  /** No listed path but the buttons' starts with one of these letters. */
  predicate ForeignLetter(c: char)
  {
    c == '_' || c == 'b'
  }

  predicate FitsLetters(path: Path)
  {
    && path != [] && path[0] != ""
    && (ForeignLetter(path[0][0]) ==> path == BUTTONS_CLEAN || path == BUTTONS_AFTERBLOW)
  }

  predicate FewForeign(listed: seq<Path>)
  {
    forall i :: 0 <= i < |listed| ==> FitsLetters(listed[i])
  }

  lemma {:induction false} ListIsFewForeign()
    ensures FewForeign(LISTED)
  {
    FirstPathsFit();
    MiddlePathsFit();
    LastPathsFit();
  }

  lemma {:induction false} FirstPathsFit()
    ensures forall i :: 0 <= i < 11 ==> FitsLetters(LISTED[i])
  {
  }

  lemma {:induction false} MiddlePathsFit()
    ensures forall i :: 11 <= i < 22 ==> FitsLetters(LISTED[i])
  {
  }

  lemma {:induction false} LastPathsFit()
    ensures forall i :: 22 <= i < |LISTED| ==> FitsLetters(LISTED[i])
  {
  }

  lemma {:induction false} ForeignIsNotRead(listed: seq<Path>, leaf: Path)
    requires FewForeign(listed) && leaf != [] && leaf[0] != "" && ForeignLetter(leaf[0][0])
    ensures !IsRead(listed, leaf)
  {
    assert forall i :: 0 <= i < |listed| ==> FitsLetters(listed[i]);
  }

  /** JavaScript holds no key `__proto__` in the `unknown` entry, so a change of a leaf named so goes unseen. */
  lemma {:induction false} PrototypeKeyEscapes(a: Json, p: Path, x: Json, buttons: ButtonValues)
    requires a.Obj? && WellFormed(a) && p == ["__proto__"] && IsLeaf(a, p) && WellFormed(x) && !NonEmptyObject(x)
    requires Print(x) != Print(ValueAt(a, p))
    ensures Changes(ScoringSide(a, buttons), ScoringSide(SetLeaf(a, p, x), buttons)) == []
    ensures Print(a) != Print(SetLeaf(a, p, x))
  {
    ListIsFewForeign();
    assert p[0][0] == '_';
    ForeignIsNotRead(LISTED, p);
    HiddenLeafEscapes(a, p, x, buttons);
  }

  /** A canonical key the button paths cover is read by no path, so a change of a leaf under it goes unseen. */
  lemma {:induction false} ButtonsKeyEscapes(a: Json, p: Path, x: Json, buttons: ButtonValues)
    requires a.Obj? && WellFormed(a) && IsLeaf(a, p) && WellFormed(x) && !NonEmptyObject(x)
    requires IsPrefix(BUTTONS_CLEAN, p) || IsPrefix(BUTTONS_AFTERBLOW, p)
    requires Print(x) != Print(ValueAt(a, p))
    ensures Changes(ScoringSide(a, buttons), ScoringSide(SetLeaf(a, p, x), buttons)) == []
    ensures Print(a) != Print(SetLeaf(a, p, x))
  {
    ListIsFewForeign();
    ListIsAList();
    assert p[0] == "buttons" && p[0][0] == 'b';
    ForeignIsNotRead(LISTED, p);
    assert Covered(LISTED, p) by {
      var i :| 0 <= i < |LISTED| && LISTED[i] == if IsPrefix(BUTTONS_CLEAN, p) then BUTTONS_CLEAN else BUTTONS_AFTERBLOW;
    }
    HiddenLeafEscapes(a, p, x, buttons);
  }

  /** Two leaves written with one dotted name: the first speaks for both, so a change of the second goes unseen. */
  lemma {:induction false} DottedKeyEscapes(a: Json, i: nat, j: nat, x: Json, buttons: ButtonValues)
    requires a.Obj? && WellFormed(a) && i < j < |Leaves(a, [])|
    requires Leaves(a, [])[i] != Leaves(a, [])[j] && DottedName(Leaves(a, [])[i]) == DottedName(Leaves(a, [])[j])
    requires !Covered(LISTED, Leaves(a, [])[i]) && !Covered(LISTED, Leaves(a, [])[j])
    requires WellFormed(x) && !NonEmptyObject(x) && Print(x) != Print(ValueAt(a, Leaves(a, [])[j]))
    ensures IsLeaf(a, Leaves(a, [])[j])
    ensures Changes(ScoringSide(a, buttons), ScoringSide(SetLeaf(a, Leaves(a, [])[j], x), buttons)) == []
    ensures Print(a) != Print(SetLeaf(a, Leaves(a, [])[j], x))
  {
    var p, q := Leaves(a, [])[j], Leaves(a, [])[i];
    LeavesAreTheLeaves(a, [], p);
    assert [] + p == p;
    SecondIsSpokenFor(LISTED, a, i, j);
    assert !IsRead(LISTED, p);
    HiddenLeafEscapes(a, p, x, buttons);
  }

  /** The paths of one object's leaves do not repeat, so the second of a name never stands before the first. */
  lemma {:induction false} SecondIsSpokenFor(listed: seq<Path>, a: Json, i: nat, j: nat)
    requires WellFormed(a) && i < j < |Leaves(a, [])|
    requires Leaves(a, [])[i] != Leaves(a, [])[j] && DottedName(Leaves(a, [])[i]) == DottedName(Leaves(a, [])[j])
    requires !Covered(listed, Leaves(a, [])[i])
    ensures !SpeaksForItself(listed, LeavesOfBoth(a, a), Leaves(a, [])[j])
  {
    var leaves, own := LeavesOfBoth(a, a), Leaves(a, []);
    assert forall k :: 0 <= k < |own| ==> leaves[k] == own[k];
    LeavesDoNotRepeat(a, []);
    forall n | 0 <= n < j
      ensures leaves[n] != own[j]
    {
      assert own[n] != own[j];
    }
    forall n | 0 <= n < |leaves| && leaves[n] == own[j]
      ensures !Deciding(listed, leaves, n)
    {
      assert leaves[i] == own[i] && i < n;
      NameIsSeen(listed, leaves, n, DottedName(own[j]));
    }
  }
}
