// A Tournament's changes of its forfeit rules, merged, saved and compared
// (packages/types/src/forfeit-rules.ts, packages/rulesets/src/forfeit-rules-diff.ts).
module ForfeitRules {
  import opened Options
  import opened Json
  import opened JsonObjects
  import opened JsonText
  import opened JsonPaths
  import opened JsonRecords
  import opened ForfeitSave

  // ---- the rules in force ----

  /** `valueAt` of the forfeit diff, and what a chain of `?.` reads: undefined when nothing is there. */
  function Raw(root: Json, path: Path): Json
  {
    match Look(root, path)
    case None => Undefined
    case Some(v) => v
  }

  /** A leaf of the rules in force: the changes' value, or the ruleset's when they hold none. */
  function InForce(ruleset: Json, changes: Json, path: Path): Json
  {
    var changed := Raw(changes, path);
    if changed.Undefined? || changed.Null? then Raw(ruleset, path) else changed
  }

  const REASONS: seq<string> := ["injury", "voluntary", "conduct_violation"]
  const RULE_KEYS: seq<string> := ["outcome", "opponentScore", "fighter"]
  const TOP_KEYS: seq<string> := ["reasons", "disqualifyAfter", "disqualifyBeforeFirstBout",
                                  "blackCardOpponentScore", "firstBlackCard", "secondBlackCard"]

  function TopPath(n: nat): Path
    requires 1 <= n < 6
  {
    [TOP_KEYS[n]]
  }

  function RulePath(reason: nat, key: nat): Path
    requires reason < 3 && key < 3
  {
    ["reasons", REASONS[reason], RULE_KEYS[key]]
  }

  /** The listed leaves, in the order of the list. */
  const LISTED: seq<Path> := [
    TopPath(1), TopPath(2), TopPath(3), TopPath(4), TopPath(5),
    RulePath(0, 0), RulePath(0, 1), RulePath(0, 2),
    RulePath(1, 0), RulePath(1, 1), RulePath(1, 2),
    RulePath(2, 0), RulePath(2, 1), RulePath(2, 2)
  ]

  function ReasonValues(ruleset: Json, changes: Json, reason: nat): seq<Json>
    requires reason < 3
  {
    [InForce(ruleset, changes, RulePath(reason, 0)), InForce(ruleset, changes, RulePath(reason, 1)),
     InForce(ruleset, changes, RulePath(reason, 2))]
  }

  function ReasonRule(ruleset: Json, changes: Json, reason: nat): Json
    requires reason < 3
  {
    Record(RULE_KEYS, ReasonValues(ruleset, changes, reason))
  }

  function ReasonRules(ruleset: Json, changes: Json): seq<Json>
  {
    [ReasonRule(ruleset, changes, 0), ReasonRule(ruleset, changes, 1), ReasonRule(ruleset, changes, 2)]
  }

  function TopValues(ruleset: Json, changes: Json): seq<Json>
  {
    [Record(REASONS, ReasonRules(ruleset, changes)),
     InForce(ruleset, changes, TopPath(1)), InForce(ruleset, changes, TopPath(2)),
     InForce(ruleset, changes, TopPath(3)), InForce(ruleset, changes, TopPath(4)),
     InForce(ruleset, changes, TopPath(5))]
  }

  /** `mergeForfeitRules`: the changes over the ruleset, leaf by leaf. */
  function Merge(ruleset: Json, changes: Json): Json
  {
    Record(TOP_KEYS, TopValues(ruleset, changes))
  }

  lemma {:induction false} RuleKeysAreDistinct()
    ensures Distinct(REASONS) && Distinct(RULE_KEYS)
  {
  }

  lemma {:induction false} TopKeysAreDistinct()
    ensures Distinct(TOP_KEYS)
  {
  }

  lemma {:induction false} MergeHoldsTop(ruleset: Json, changes: Json, n: nat)
    requires 1 <= n < 6
    ensures Look(Merge(ruleset, changes), TopPath(n)) == Some(InForce(ruleset, changes, TopPath(n)))
  {
    TopKeysAreDistinct();
    RecordLook(TOP_KEYS, TopValues(ruleset, changes), n, []);
    assert TopPath(n) == [TOP_KEYS[n]] + [];
  }

  lemma {:induction false} ReasonHolds(ruleset: Json, changes: Json, i: nat, j: nat)
    requires i < 3 && j < 3
    ensures Look(ReasonRule(ruleset, changes, i), [RULE_KEYS[j]]) == Some(InForce(ruleset, changes, RulePath(i, j)))
  {
    RuleKeysAreDistinct();
    RecordLook(RULE_KEYS, ReasonValues(ruleset, changes, i), j, []);
    assert [RULE_KEYS[j]] + [] == [RULE_KEYS[j]];
  }

  lemma {:induction false} MergeHoldsRule(ruleset: Json, changes: Json, i: nat, j: nat)
    requires i < 3 && j < 3
    ensures Look(Merge(ruleset, changes), RulePath(i, j)) == Some(InForce(ruleset, changes, RulePath(i, j)))
  {
    var below, leaf := [REASONS[i], RULE_KEYS[j]], [RULE_KEYS[j]];
    assert RulePath(i, j) == [TOP_KEYS[0]] + below && below == [REASONS[i]] + leaf;
    TopKeysAreDistinct();
    RuleKeysAreDistinct();
    RecordLook(TOP_KEYS, TopValues(ruleset, changes), 0, below);
    RecordLook(REASONS, ReasonRules(ruleset, changes), i, leaf);
    assert ReasonRules(ruleset, changes)[i] == ReasonRule(ruleset, changes, i);
    ReasonHolds(ruleset, changes, i, j);
  }

  /** Which leaf each listed path is. */
  lemma {:induction false} ListedPath(n: nat)
    requires n < |LISTED|
    ensures n < 5 ==> LISTED[n] == TopPath(n + 1)
    ensures n >= 5 ==> LISTED[n] == RulePath((n - 5) / 3, (n - 5) % 3)
  {
  }

  /** The rules in force hold, at every listed leaf, the changes' value or else the ruleset's. */
  lemma {:induction false} MergeHolds(ruleset: Json, changes: Json, n: nat)
    requires n < |LISTED|
    ensures Look(Merge(ruleset, changes), LISTED[n]) == Some(InForce(ruleset, changes, LISTED[n]))
  {
    ListedPath(n);
    if n < 5 {
      MergeHoldsTop(ruleset, changes, n + 1);
    } else {
      MergeHoldsRule(ruleset, changes, (n - 5) / 3, (n - 5) % 3);
    }
  }

  // ---- what a save does to the rules in force ----

  /** A patch sends `path` as a leaf: a tree or nothing above it, and no tree at it. */
  predicate SentAsLeaf(patch: Json, path: Path)
    decreases |path|
  {
    if path == [] then !patch.Obj?
    else patch.Undefined? || (patch.Obj? && SentAsLeaf(Get(patch.fields, path[0]), path[1..]))
  }

  lemma {:induction false} RawStep(fields: seq<Field>, path: Path)
    requires path != []
    ensures Raw(Obj(fields), path)
         == match At(fields, path[0]) case None => Undefined case Some(v) => Raw(v, path[1..])
  {
  }

  function LeafAfterSave(held: Json, sent: Json): Json
  {
    match sent
    case Undefined => held
    case Null => Undefined
    case _ => sent
  }

  /** What is stored at a leaf after a save: the sent value, nothing after a reset, else what was. */
  lemma {:induction false} StoredAfterSave(next: seq<Field>, patch: seq<Field>, path: Path)
    requires WellFormed(Obj(next)) && WellFormed(Obj(patch))
    requires path != [] && SentAsLeaf(Obj(patch), path)
    ensures Raw(Obj(Patched(next, patch)), path) == LeafAfterSave(Raw(Obj(next), path), Raw(Obj(patch), path))
    decreases |path|
  {
    var k, rest := path[0], path[1..];
    var v := Get(patch, k);
    PatchedAt(next, patch, k);
    RawStep(Patched(next, patch), path);
    RawStep(next, path);
    RawStep(patch, path);
    SubTreeIsWellFormed(patch, k);
    if !HasKey(patch, k) {
      GetMisses(patch, k);
    }
    if rest != [] && v.Obj? {
      SubTreeIsWellFormed(next, k);
      StoredAfterSave(SubTree(Get(next, k)), v.fields, rest);
      RawOfSubTree(next, path);
      RawStep([], rest);
      if !HasKey(next, k) {
        GetMisses(next, k);
      }
    }
  }

  lemma {:induction false} RawOfSubTree(fields: seq<Field>, path: Path)
    requires |path| > 1
    ensures Raw(Obj(SubTree(Get(fields, path[0]))), path[1..]) == Raw(Obj(fields), path)
  {
    RawStep(fields, path);
    if !HasKey(fields, path[0]) {
      GetMisses(fields, path[0]);
    }
    RawStep([], path[1..]);
  }

  lemma {:induction false} StoredValueAfterSave(stored: Json, patch: Json, path: Path)
    requires Stored(stored) && Patch(patch) && Harmless(SubTree(stored), patch.fields)
    requires path != [] && SentAsLeaf(patch, path)
    ensures Raw(Save(stored, patch), path) == LeafAfterSave(Raw(stored, path), Raw(patch, path))
  {
    var held := SubTree(stored);
    CleanIsWellFormed(stored);
    StoredAfterSave(held, patch.fields, path);
    RawStep([], path);
    assert Raw(Obj(held), path) == Raw(stored, path);
    PatchIsWellFormed(stored, patch);
    SaveIsAsSentIffHarmless(held, patch.fields);
    assert Raw(Save(stored, patch), path) == Raw(Obj(Patched(held, patch.fields)), path);
  }

  lemma {:induction false} PatchIsWellFormed(stored: Json, patch: Json)
    requires Stored(stored) && Patch(patch)
    ensures WellFormed(Obj(SubTree(stored))) && WellFormed(Obj(patch.fields))
  {
    CleanIsWellFormed(stored);
  }

  /** What a save leaves in force at a leaf: the sent value, the ruleset's on a reset, or what was in force. */
  function LeafInForceAfterSave(ruleset: Json, before: Json, sent: Json): Json
  {
    match sent
    case Undefined => before
    case Null => ruleset
    case _ => sent
  }

  lemma {:induction false} InForceOfSave(ruleset: Json, stored: Json, patch: Json, path: Path)
    requires Stored(stored) && Patch(patch) && Harmless(SubTree(stored), patch.fields)
    requires path != [] && SentAsLeaf(patch, path)
    ensures InForce(ruleset, Save(stored, patch), path)
         == LeafInForceAfterSave(Raw(ruleset, path), InForce(ruleset, stored, path), Raw(patch, path))
  {
    StoredValueAfterSave(stored, patch, path);
  }

  lemma {:induction false} InForceAfterSave(ruleset: Json, stored: Json, patch: Json, n: nat)
    requires n < |LISTED| && Stored(stored) && Patch(patch) && Harmless(SubTree(stored), patch.fields)
    requires SentAsLeaf(patch, LISTED[n])
    ensures Raw(Merge(ruleset, Save(stored, patch)), LISTED[n])
         == LeafInForceAfterSave(Raw(ruleset, LISTED[n]), Raw(Merge(ruleset, stored), LISTED[n]), Raw(patch, LISTED[n]))
  {
    MergeHolds(ruleset, Save(stored, patch), n);
    MergeHolds(ruleset, stored, n);
    ListedPathIsNotEmpty(n);
    InForceOfSave(ruleset, stored, patch, LISTED[n]);
  }

  lemma {:induction false} ListedPathIsNotEmpty(n: nat)
    requires n < |LISTED|
    ensures LISTED[n] != []
  {
    ListedPath(n);
  }

  lemma {:induction false} CleanIsWellFormed(v: Json)
    requires Clean(v) || v.Null?
    ensures WellFormed(v)
    decreases v
  {
    if v.Obj? {
      forall f | f in v.fields
        ensures WellFormed(f.value)
      {
        CleanIsWellFormed(f.value);
      }
    }
  }

  // ---- the diff ----

  datatype StoredMark = NoMark | Set | Reset

  datatype RulesChange = RulesChange(path: Path, before: Json, after: Json, stored: StoredMark)

  const UNKNOWN_PATH: Path := ["unknown"]

  /** The rules in force and the stored changes of one side. */
  datatype Side = Side(inForce: Json, stored: Json)

  /** One listed leaf: its value in force moved, or else its stored presence did. */
  function LeafChange(before: Side, after: Side, path: Path): Option<RulesChange>
  {
    var was, now := Raw(before.inForce, path), Raw(after.inForce, path);
    var wasStored, isStored := !Raw(before.stored, path).Undefined?, !Raw(after.stored, path).Undefined?;
    if Print(was) != Print(now) then Some(RulesChange(path, was, now, NoMark))
    else if wasStored != isStored then Some(RulesChange(path, was, now, if isStored then Set else Reset))
    else None
  }

  function LeafChanges(before: Side, after: Side, paths: seq<Path>): seq<RulesChange>
  {
    if paths == [] then []
    else
      var earlier := LeafChanges(before, after, paths[..|paths| - 1]);
      match LeafChange(before, after, paths[|paths| - 1])
      case None => earlier
      case Some(change) => earlier + [change]
  }

  /** Whether a leaf no listed path covers differs between two trees. */
  predicate UnlistedChanged(listed: seq<Path>, before: Json, after: Json)
  {
    var leaves := Leaves(before, []) + Leaves(after, []);
    exists i :: 0 <= i < |leaves| && !Covered(listed, leaves[i]) && Print(Raw(before, leaves[i])) != Print(Raw(after, leaves[i]))
  }

  function Changes(before: Side, after: Side): seq<RulesChange>
  {
    LeafChanges(before, after, LISTED)
    + if UnlistedChanged(LISTED, before.inForce, after.inForce) || UnlistedChanged(LISTED, before.stored, after.stored)
      then [RulesChange(UNKNOWN_PATH, Null, Null, NoMark)]
      else []
  }

  method FindLeafChanges(before: Side, after: Side, paths: seq<Path>) returns (changes: seq<RulesChange>)
    ensures changes == LeafChanges(before, after, paths)
  {
    changes := [];
    for i := 0 to |paths|
      invariant changes == LeafChanges(before, after, paths[..i])
    {
      assert paths[..i + 1][..i] == paths[..i];
      var change := LeafChange(before, after, paths[i]);
      if change.Some? {
        changes := changes + [change.value];
      }
    }
    assert paths[..|paths|] == paths;
  }

  method FindChanges(before: Side, after: Side) returns (changes: seq<RulesChange>)
    ensures changes == Changes(before, after)
  {
    changes := FindLeafChanges(before, after, LISTED);
    if UnlistedChanged(LISTED, before.inForce, after.inForce) || UnlistedChanged(LISTED, before.stored, after.stored) {
      changes := changes + [RulesChange(UNKNOWN_PATH, Null, Null, NoMark)];
    }
  }

  lemma {:induction false} NoLeafChange(before: Side, after: Side, paths: seq<Path>)
    ensures LeafChanges(before, after, paths) == []
       <==> forall i :: 0 <= i < |paths| ==> LeafChange(before, after, paths[i]).None?
  {
    if paths != [] {
      NoLeafChange(before, after, paths[..|paths| - 1]);
      assert forall i :: 0 <= i < |paths| - 1 ==> paths[..|paths| - 1][i] == paths[i];
    }
  }

  // ---- the diff is empty exactly when nothing moved ----

  /** The tree of stored changes: null holds none. */
  function StoredTree(stored: Json): Json
  {
    Obj(SubTree(stored))
  }

  lemma {:induction false} StoredReadsAsTree(stored: Json, path: Path)
    requires Stored(stored) && path != []
    ensures Look(stored, path) == Look(StoredTree(stored), path)
  {
  }

  lemma {:induction false} LookIsClean(v: Json, path: Path)
    requires Clean(v) && Look(v, path).Some?
    ensures Clean(Look(v, path).value)
    decreases |path|
  {
    if path != [] {
      CleanAt(v.fields, path[0]);
      LookIsClean(Get(v.fields, path[0]), path[1..]);
    }
  }

  /** A stored value never reads as null: a path reads so exactly when nothing is stored there. */
  lemma {:induction false} StoredReads(stored: Json, path: Path)
    requires Stored(stored) && path != []
    ensures WellFormed(Raw(stored, path))
    ensures Look(stored, path).None? <==> ReadsAsNull(Raw(stored, path))
    ensures Look(stored, path).None? <==> Raw(stored, path).Undefined?
  {
    if Look(stored, path).Some? {
      LookIsClean(stored, path);
      CleanIsWellFormed(Look(stored, path).value);
    }
  }

  /** Two stored trees that print alike at a path hold the same there, or nothing in both. */
  lemma {:induction false} PrintingAlikeAgrees(s: Json, t: Json, path: Path)
    requires Stored(s) && Stored(t) && path != []
    ensures Print(Raw(s, path)) == Print(Raw(t, path)) <==> AgreeAt(s, t, path)
  {
    StoredReads(s, path);
    StoredReads(t, path);
    PrintIsIdentity(Raw(s, path), Raw(t, path));
  }

  lemma {:induction false} InForceIsWellFormed(ruleset: Json, stored: Json, path: Path)
    requires WellFormed(ruleset) && Stored(stored) && path != []
    ensures WellFormed(InForce(ruleset, stored, path))
  {
    StoredReads(stored, path);
    if Look(ruleset, path).Some? {
      LookIsWellFormed(ruleset, path);
    }
  }

  /** One leaf with the same value in force on both sides. */
  ghost predicate SameLeaf(before: Sources, after: Sources, path: Path)
  {
    Same(InForce(before.ruleset, before.stored, path), InForce(after.ruleset, after.stored, path))
  }

  /** What the rules in force of one side are made from. */
  datatype Sources = Sources(ruleset: Json, stored: Json)

  function Rules(s: Sources): Json
  {
    Merge(s.ruleset, s.stored)
  }

  ghost predicate SameReason(before: Sources, after: Sources, i: nat)
    requires i < 3
  {
    SameLeaf(before, after, RulePath(i, 0)) && SameLeaf(before, after, RulePath(i, 1)) && SameLeaf(before, after, RulePath(i, 2))
  }

  lemma {:induction false} SameReasonRule(before: Sources, after: Sources, i: nat)
    requires i < 3
    ensures Same(ReasonRule(before.ruleset, before.stored, i), ReasonRule(after.ruleset, after.stored, i))
       <==> SameReason(before, after, i)
  {
    var vs, ws := ReasonValues(before.ruleset, before.stored, i), ReasonValues(after.ruleset, after.stored, i);
    RuleRecords(vs, ws);
    ThreeValues(vs, ws);
  }

  lemma {:induction false} RuleRecords(vs: seq<Json>, ws: seq<Json>)
    requires |vs| == |ws| == 3
    ensures Same(Record(RULE_KEYS, vs), Record(RULE_KEYS, ws)) <==> SameItems(vs, ws)
    ensures Same(Record(REASONS, vs), Record(REASONS, ws)) <==> SameItems(vs, ws)
  {
    RuleKeysAreDistinct();
    RecordsAreSame(RULE_KEYS, vs, ws);
    RecordsAreSame(REASONS, vs, ws);
  }

  lemma {:induction false} TopRecords(vs: seq<Json>, ws: seq<Json>)
    requires |vs| == |ws| == 6
    ensures Same(Record(TOP_KEYS, vs), Record(TOP_KEYS, ws)) <==> SameItems(vs, ws)
  {
    TopKeysAreDistinct();
    RecordsAreSame(TOP_KEYS, vs, ws);
  }

  lemma {:induction false} ThreeValues(vs: seq<Json>, ws: seq<Json>)
    requires |vs| == |ws| == 3
    ensures SameItems(vs, ws) <==> Same(vs[0], ws[0]) && Same(vs[1], ws[1]) && Same(vs[2], ws[2])
  {
  }

  lemma {:induction false} SixValues(vs: seq<Json>, ws: seq<Json>)
    requires |vs| == |ws| == 6
    ensures SameItems(vs, ws)
       <==> && Same(vs[0], ws[0]) && Same(vs[1], ws[1]) && Same(vs[2], ws[2])
            && Same(vs[3], ws[3]) && Same(vs[4], ws[4]) && Same(vs[5], ws[5])
  {
  }

  lemma {:induction false} SameReasonRules(before: Sources, after: Sources)
    ensures Same(Record(REASONS, ReasonRules(before.ruleset, before.stored)),
                 Record(REASONS, ReasonRules(after.ruleset, after.stored)))
       <==> SameReason(before, after, 0) && SameReason(before, after, 1) && SameReason(before, after, 2)
  {
    var us, ts := ReasonRules(before.ruleset, before.stored), ReasonRules(after.ruleset, after.stored);
    RuleRecords(us, ts);
    ThreeValues(us, ts);
    SameReasonRule(before, after, 0);
    SameReasonRule(before, after, 1);
    SameReasonRule(before, after, 2);
  }

  lemma {:induction false} SameRules(before: Sources, after: Sources)
    ensures Same(Rules(before), Rules(after))
       <==> && SameLeaf(before, after, TopPath(1)) && SameLeaf(before, after, TopPath(2))
            && SameLeaf(before, after, TopPath(3)) && SameLeaf(before, after, TopPath(4))
            && SameLeaf(before, after, TopPath(5))
            && SameReason(before, after, 0) && SameReason(before, after, 1) && SameReason(before, after, 2)
  {
    var vs, ws := TopValues(before.ruleset, before.stored), TopValues(after.ruleset, after.stored);
    TopRecords(vs, ws);
    SixValues(vs, ws);
    SameReasonRules(before, after);
  }

  /** The list, read one path at a time. */
  lemma {:induction false} ListedOneByOne(p: Path -> bool)
    ensures (forall n :: 0 <= n < |LISTED| ==> p(LISTED[n]))
       <==> && p(TopPath(1)) && p(TopPath(2)) && p(TopPath(3)) && p(TopPath(4)) && p(TopPath(5))
            && p(RulePath(0, 0)) && p(RulePath(0, 1)) && p(RulePath(0, 2))
            && p(RulePath(1, 0)) && p(RulePath(1, 1)) && p(RulePath(1, 2))
            && p(RulePath(2, 0)) && p(RulePath(2, 1)) && p(RulePath(2, 2))
  {
    if forall n :: 0 <= n < |LISTED| ==> p(LISTED[n]) {
      assert p(LISTED[0]) && p(LISTED[1]) && p(LISTED[2]) && p(LISTED[3]) && p(LISTED[4]);
      assert p(LISTED[5]) && p(LISTED[6]) && p(LISTED[7]) && p(LISTED[8]) && p(LISTED[9]);
      assert p(LISTED[10]) && p(LISTED[11]) && p(LISTED[12]) && p(LISTED[13]);
    } else {
      var n :| 0 <= n < |LISTED| && !p(LISTED[n]);
      ListedPath(n);
    }
  }

  lemma {:induction false} SameRulesAtLeaves(before: Sources, after: Sources, p: Path -> bool)
    requires forall path :: p(path) == SameLeaf(before, after, path)
    ensures Same(Rules(before), Rules(after))
       <==> && p(TopPath(1)) && p(TopPath(2)) && p(TopPath(3)) && p(TopPath(4)) && p(TopPath(5))
            && p(RulePath(0, 0)) && p(RulePath(0, 1)) && p(RulePath(0, 2))
            && p(RulePath(1, 0)) && p(RulePath(1, 1)) && p(RulePath(1, 2))
            && p(RulePath(2, 0)) && p(RulePath(2, 1)) && p(RulePath(2, 2))
  {
    SameRules(before, after);
  }

  /** Rules in force with the same value at every listed leaf are the same rules. */
  lemma {:induction false} SameLeavesSameRules(before: Sources, after: Sources)
    ensures Same(Rules(before), Rules(after))
       <==> forall n :: 0 <= n < |LISTED| ==> SameLeaf(before, after, LISTED[n])
  {
    var p := path => SameLeaf(before, after, path);
    ListedOneByOne(p);
    SameRulesAtLeaves(before, after, p);
    assert (forall n :: 0 <= n < |LISTED| ==> p(LISTED[n]))
      <==> (forall n :: 0 <= n < |LISTED| ==> SameLeaf(before, after, LISTED[n]));
  }

  function SideOf(s: Sources): Side
  {
    Side(Rules(s), s.stored)
  }

  /** A ruleset as it is read, under changes as they are stored. */
  ghost predicate Sound(s: Sources)
  {
    WellFormed(s.ruleset) && Stored(s.stored)
  }

  /** A listed leaf is quiet exactly when its value in force and its stored presence are the same. */
  lemma {:induction false} QuietLeaf(before: Sources, after: Sources, n: nat)
    requires Sound(before) && Sound(after) && n < |LISTED|
    ensures LeafChange(SideOf(before), SideOf(after), LISTED[n]).None?
       <==> && SameLeaf(before, after, LISTED[n])
            && Look(before.stored, LISTED[n]).Some? == Look(after.stored, LISTED[n]).Some?
  {
    var path := LISTED[n];
    MergeHolds(before.ruleset, before.stored, n);
    MergeHolds(after.ruleset, after.stored, n);
    ListedPathIsNotEmpty(n);
    InForceIsWellFormed(before.ruleset, before.stored, path);
    InForceIsWellFormed(after.ruleset, after.stored, path);
    PrintIsIdentity(InForce(before.ruleset, before.stored, path), InForce(after.ruleset, after.stored, path));
    StoredReads(before.stored, path);
    StoredReads(after.stored, path);
  }

  /** A tree compared with the same tree shows no unlisted change. */
  lemma {:induction false} SameIsQuiet(listed: seq<Path>, a: Json, b: Json)
    requires WellFormed(a) && WellFormed(b) && Same(a, b)
    ensures !UnlistedChanged(listed, a, b)
  {
    forall p: Path
      ensures Print(Raw(a, p)) == Print(Raw(b, p))
    {
      SameAgreesEverywhere(a, b, p);
      if Look(a, p).Some? {
        LookIsWellFormed(a, p);
        LookIsWellFormed(b, p);
        SamePrintsAlike(Look(a, p).value, Look(b, p).value);
      }
    }
  }

  lemma {:induction false} StoredLeafListed(s: Json, t: Json, leaf: Path)
    requires Stored(s) && Stored(t) && leaf != []
    ensures leaf in Leaves(s, []) + Leaves(t, []) <==> IsLeaf(StoredTree(s), leaf) || IsLeaf(StoredTree(t), leaf)
  {
    CleanIsWellFormed(s);
    CleanIsWellFormed(t);
    LeavesAreTheLeaves(s, [], leaf);
    LeavesAreTheLeaves(t, [], leaf);
    assert [] + leaf == leaf;
  }

  /** Under a listed leaf present on both sides with one value in force, the stored values are one. */
  lemma {:induction false} CoveredLeafAgrees(before: Sources, after: Sources, path: Path, leaf: Path)
    requires Sound(before) && Sound(after) && path != [] && IsPrefix(path, leaf)
    requires SameLeaf(before, after, path)
    requires Look(before.stored, path).Some? == Look(after.stored, path).Some?
    ensures AgreeAt(before.stored, after.stored, leaf)
  {
    CleanIsWellFormed(before.stored);
    CleanIsWellFormed(after.stored);
    StoredReads(before.stored, path);
    StoredReads(after.stored, path);
    AgreeingGoesDown(before.stored, after.stored, path, leaf);
  }

  lemma {:induction false} StoredLeafAgrees(before: Sources, after: Sources, leaf: Path)
    requires Sound(before) && Sound(after) && leaf != []
    requires forall n :: 0 <= n < |LISTED| ==> LeafChange(SideOf(before), SideOf(after), LISTED[n]).None?
    requires !UnlistedChanged(LISTED, before.stored, after.stored)
    requires IsLeaf(StoredTree(before.stored), leaf) || IsLeaf(StoredTree(after.stored), leaf)
    ensures AgreeAt(before.stored, after.stored, leaf)
  {
    if Covered(LISTED, leaf) {
      var n :| 0 <= n < |LISTED| && IsPrefix(LISTED[n], leaf);
      QuietLeaf(before, after, n);
      ListedPathIsNotEmpty(n);
      CoveredLeafAgrees(before, after, LISTED[n], leaf);
    } else {
      UncoveredLeafAgrees(LISTED, before.stored, after.stored, leaf);
    }
  }

  lemma {:induction false} UncoveredLeafAgrees(listed: seq<Path>, s: Json, t: Json, leaf: Path)
    requires Stored(s) && Stored(t) && leaf != [] && !Covered(listed, leaf)
    requires !UnlistedChanged(listed, s, t)
    requires IsLeaf(StoredTree(s), leaf) || IsLeaf(StoredTree(t), leaf)
    ensures AgreeAt(s, t, leaf)
  {
    StoredLeafListed(s, t, leaf);
    var leaves := Leaves(s, []) + Leaves(t, []);
    var i :| 0 <= i < |leaves| && leaves[i] == leaf;
    PrintingAlikeAgrees(s, t, leaf);
  }

  /** Two stored values whose trees are the same are the same: an empty tree is stored as null only. */
  lemma {:induction false} SameTreesSameStored(s: Json, t: Json)
    requires Stored(s) && Stored(t)
    ensures Same(StoredTree(s), StoredTree(t)) <==> Same(s, t)
  {
    if s.Null? && t.Obj? {
      assert t.fields[0] in t.fields;
    } else if s.Obj? && t.Null? {
      assert s.fields[0] in s.fields;
    }
  }

  lemma {:induction false} NothingMovedIsQuiet(before: Sources, after: Sources)
    requires Sound(before) && Sound(after)
    requires Same(Rules(before), Rules(after)) && Same(before.stored, after.stored)
    ensures Changes(SideOf(before), SideOf(after)) == []
  {
    SameLeavesSameRules(before, after);
    CleanIsWellFormed(before.stored);
    CleanIsWellFormed(after.stored);
    RulesAreWellFormed(before);
    RulesAreWellFormed(after);
    SameIsQuiet(LISTED, Rules(before), Rules(after));
    SameIsQuiet(LISTED, before.stored, after.stored);
    forall n | 0 <= n < |LISTED|
      ensures LeafChange(SideOf(before), SideOf(after), LISTED[n]).None?
    {
      QuietLeaf(before, after, n);
      SameAgreesEverywhere(before.stored, after.stored, LISTED[n]);
    }
    NoLeafChange(SideOf(before), SideOf(after), LISTED);
  }

  lemma {:induction false} ReasonIsWellFormed(s: Sources, i: nat)
    requires Sound(s) && i < 3
    ensures WellFormed(ReasonRule(s.ruleset, s.stored, i))
  {
    RuleKeysAreDistinct();
    InForceIsWellFormed(s.ruleset, s.stored, RulePath(i, 0));
    InForceIsWellFormed(s.ruleset, s.stored, RulePath(i, 1));
    InForceIsWellFormed(s.ruleset, s.stored, RulePath(i, 2));
    RecordIsWellFormed(RULE_KEYS, ReasonValues(s.ruleset, s.stored, i));
  }

  lemma {:induction false} ReasonsAreWellFormed(s: Sources)
    requires Sound(s)
    ensures WellFormed(Record(REASONS, ReasonRules(s.ruleset, s.stored)))
  {
    RuleKeysAreDistinct();
    forall i | 0 <= i < 3 ensures WellFormed(ReasonRule(s.ruleset, s.stored, i)) {
      ReasonIsWellFormed(s, i);
    }
    RecordIsWellFormed(REASONS, ReasonRules(s.ruleset, s.stored));
  }

  lemma {:induction false} TopsAreWellFormed(s: Sources)
    requires Sound(s)
    ensures forall v :: v in TopValues(s.ruleset, s.stored) ==> WellFormed(v)
  {
    var vs := TopValues(s.ruleset, s.stored);
    forall n | 0 <= n < 6
      ensures WellFormed(vs[n])
    {
      if n == 0 {
        ReasonsAreWellFormed(s);
      } else {
        InForceIsWellFormed(s.ruleset, s.stored, TopPath(n));
      }
    }
    assert |vs| == 6;
  }

  lemma {:induction false} RulesAreWellFormed(s: Sources)
    requires Sound(s)
    ensures WellFormed(Rules(s))
  {
    TopKeysAreDistinct();
    TopsAreWellFormed(s);
    RecordIsWellFormed(TOP_KEYS, TopValues(s.ruleset, s.stored));
  }

  /**
   * The diff of two states a Tournament can reach names nothing if and only if the rules in force
   * and the stored changes are the same. Nothing escapes it: not a value equal to the ruleset's set
   * or reset, not a stored key outside the list.
   */
  lemma {:induction false} DiffIsEmptyIffNothingMoved(before: Sources, after: Sources)
    requires Sound(before) && Sound(after)
    ensures Changes(SideOf(before), SideOf(after)) == []
       <==> Same(Rules(before), Rules(after)) && Same(before.stored, after.stored)
  {
    if Changes(SideOf(before), SideOf(after)) == [] {
      NoLeafChange(SideOf(before), SideOf(after), LISTED);
      forall n | 0 <= n < |LISTED|
        ensures SameLeaf(before, after, LISTED[n])
      {
        QuietLeaf(before, after, n);
      }
      SameLeavesSameRules(before, after);
      StoredIsSame(before, after);
    } else if Same(Rules(before), Rules(after)) && Same(before.stored, after.stored) {
      NothingMovedIsQuiet(before, after);
    }
  }

  lemma {:induction false} StoredIsSame(before: Sources, after: Sources)
    requires Sound(before) && Sound(after)
    requires forall n :: 0 <= n < |LISTED| ==> LeafChange(SideOf(before), SideOf(after), LISTED[n]).None?
    requires !UnlistedChanged(LISTED, before.stored, after.stored)
    ensures Same(before.stored, after.stored)
  {
    var s, t := StoredTree(before.stored), StoredTree(after.stored);
    CleanIsWellFormed(before.stored);
    CleanIsWellFormed(after.stored);
    forall p | p != [] && (IsLeaf(s, p) || IsLeaf(t, p))
      ensures AgreeAt(s, t, p)
    {
      StoredLeafAgrees(before, after, p);
      StoredReadsAsTree(before.stored, p);
      StoredReadsAsTree(after.stored, p);
    }
    AgreeingAtLeavesIsSame(s, t);
    SameTreesSameStored(before.stored, after.stored);
  }
}
