// The save of a Tournament's changes of its forfeit rules (packages/types/src/forfeit-rules.ts).
module ForfeitSave {
  import opened Options
  import opened Json
  import opened JsonObjects

  function SubTree(value: Json): seq<Field>
  {
    if value.Obj? then value.fields else []
  }

  // ---- what a save asks for ----

  /** One key of a patch: not sent keeps, null resets, a tree patches the tree below, a leaf is set. */
  function PatchOne(next: seq<Field>, sent: Field): seq<Field>
    decreases sent, 0
  {
    match sent.value
    case Undefined => next
    case Null => Delete(next, sent.key)
    case Obj(below) =>
      var child := Patched(SubTree(Get(next, sent.key)), below);
      if child != [] then Put(next, sent.key, Obj(child)) else Delete(next, sent.key)
    case _ => Put(next, sent.key, sent.value)
  }

  function Patched(next: seq<Field>, patch: seq<Field>): seq<Field>
    decreases patch, 1
  {
    if patch == [] then next else Patched(PatchOne(next, patch[0]), patch[1..])
  }

  /** What a patch leaves under one key, from what was held there and what was sent. */
  function PatchedValue(held: Option<Json>, sent: Json): Option<Json>
  {
    match sent
    case Undefined => held
    case Null => None
    case Obj(below) =>
      var child := Patched(if held.Some? then SubTree(held.value) else [], below);
      if child != [] then Some(Obj(child)) else None
    case _ => Some(sent)
  }

  lemma {:induction false} PatchOneAt(next: seq<Field>, sent: Field, k: string)
    requires DistinctKeys(next)
    ensures DistinctKeys(PatchOne(next, sent))
    ensures At(PatchOne(next, sent), k)
         == if k == sent.key then PatchedValue(At(next, k), sent.value) else At(next, k)
  {
    DeleteAt(next, sent.key, k);
    PutAt(next, sent.key, sent.value, k);
    if !HasKey(next, sent.key) {
      GetMisses(next, sent.key);
    }
    if sent.value.Obj? {
      PutAt(next, sent.key, Obj(Patched(SubTree(Get(next, sent.key)), sent.value.fields)), k);
    }
  }

  /** A save decides each key by what was sent under it, whatever order the keys came in. */
  lemma {:induction false} PatchedAt(next: seq<Field>, patch: seq<Field>, k: string)
    requires DistinctKeys(next) && DistinctKeys(patch)
    ensures DistinctKeys(Patched(next, patch))
    ensures At(Patched(next, patch), k) == PatchedValue(At(next, k), Get(patch, k))
    decreases patch
  {
    if patch != [] {
      PatchOneAt(next, patch[0], k);
      PatchedAt(PatchOne(next, patch[0]), patch[1..], k);
      if patch[0].key == k {
        assert !HasKey(patch[1..], k);
        GetMisses(patch[1..], k);
      }
    }
  }

  // ---- what JavaScript does ----

  /** An object while it is patched: its own keys, and those of what it inherits from, the nearest first. */
  datatype Patching = Patching(own: seq<Field>, inherited: seq<Field>)

  /** What the object answers for a key: its own value, else an inherited one. */
  function Answer(next: Patching, key: string): Json
  {
    if HasKey(next.own, key) then Get(next.own, key) else Get(next.inherited, key)
  }

  /**
   * An assignment. Under `__proto__` it makes no key, unless the object has that one of its own: a
   * tree becomes what the object inherits from, and anything else is dropped. (A list is inherited
   * from as well, but lends nothing: its keys are indices, which are sent before any name.)
   */
  function Assign(next: Patching, key: string, value: Json, lent: seq<Field>): Patching
  {
    if key != "__proto__" || HasKey(next.own, key) then next.(own := Put(next.own, key, value))
    else next.(inherited := lent)
  }

  function Remove(next: Patching, key: string): Patching
  {
    next.(own := Delete(next.own, key))
  }

  function StepTree(next: Patching, sent: Field): Patching
    decreases sent, 0
  {
    match sent.value
    case Undefined => next
    case Null => Remove(next, sent.key)
    case Obj(below) =>
      var child := PatchedTree(Patching(SubTree(Answer(next, sent.key)), []), below);
      if child.own != [] then Assign(next, sent.key, Obj(child.own), child.own + child.inherited)
      else Remove(next, sent.key)
    case _ => Assign(next, sent.key, sent.value, next.inherited)
  }

  function PatchedTree(next: Patching, patch: seq<Field>): Patching
    decreases patch, 1
  {
    if patch == [] then next else PatchedTree(StepTree(next, patch[0]), patch[1..])
  }

  /** `patchTree`: a copy of the stored tree, with each sent key set or deleted in turn. */
  method PatchTree(stored: seq<Field>, patch: seq<Field>) returns (next: Patching)
    ensures next == PatchedTree(Patching(stored, []), patch)
    decreases patch
  {
    next := Patching(stored, []);
    assert patch[0..] == patch;
    for i := 0 to |patch|
      invariant PatchedTree(next, patch[i..]) == PatchedTree(Patching(stored, []), patch)
    {
      var key, value := patch[i].key, patch[i].value;
      assert patch[i..][0] == patch[i] && patch[i..][1..] == patch[i + 1..];
      if value.Undefined? {
      } else if value.Null? {
        next := Remove(next, key);
      } else if value.Obj? {
        var held := Answer(next, key);
        var child := PatchTree(if held.Obj? then held.fields else [], value.fields);
        if |child.own| > 0 {
          next := Assign(next, key, Obj(child.own), child.own + child.inherited);
        } else {
          next := Remove(next, key);
        }
      } else {
        next := Assign(next, key, value, next.inherited);
      }
    }
    assert patch[|patch|..] == [];
  }

  /** The stored changes after a save, as JSON keeps them: own keys alone. Nothing left is null. */
  function Save(stored: Json, patch: Json): Json
  {
    var next := PatchedTree(Patching(SubTree(stored), []), SubTree(patch)).own;
    if next != [] then Obj(next) else Null
  }

  // ---- when a save does what it is asked ----

  /** The one assignment that goes wrong: something to keep under `__proto__`, where there is no such key yet. */
  predicate TakesPrototype(stored: seq<Field>, sent: Field)
  {
    sent.key == "__proto__" && !HasKey(stored, sent.key) && PatchedValue(None, sent.value).Some?
  }

  /** No tree of the patch does it. */
  predicate Harmless(stored: seq<Field>, patch: seq<Field>)
    decreases patch
  {
    forall sent :: sent in patch ==>
      && !TakesPrototype(stored, sent)
      && (sent.value.Obj? ==> Harmless(SubTree(Get(stored, sent.key)), sent.value.fields))
  }

  /** A patch that names `__proto__` nowhere does none of it. */
  ghost predicate NamesNoPrototype(patch: seq<Field>)
    decreases patch
  {
    forall sent :: sent in patch ==>
      sent.key != "__proto__" && (sent.value.Obj? ==> NamesNoPrototype(sent.value.fields))
  }

  lemma {:induction false} NoPrototypeIsHarmless(stored: seq<Field>, patch: seq<Field>)
    requires NamesNoPrototype(patch)
    ensures Harmless(stored, patch)
    decreases patch
  {
    forall sent | sent in patch && sent.value.Obj?
      ensures Harmless(SubTree(Get(stored, sent.key)), sent.value.fields)
    {
      NoPrototypeIsHarmless(SubTree(Get(stored, sent.key)), sent.value.fields);
    }
  }

  /** A patch that leaves nothing of nothing is harmless there. */
  lemma {:induction false} EmptyingIsHarmless(patch: seq<Field>)
    requires WellFormed(Obj(patch)) && Patched([], patch) == []
    ensures Harmless([], patch)
    decreases patch
  {
    forall sent | sent in patch
      ensures !TakesPrototype([], sent)
      ensures sent.value.Obj? ==> Harmless(SubTree(Get([], sent.key)), sent.value.fields)
    {
      PatchedAt([], patch, sent.key);
      GetFinds(patch, sent);
      assert PatchedValue(None, sent.value).None?;
      if sent.value.Obj? {
        EmptyingIsHarmless(sent.value.fields);
      }
    }
  }

  predicate IsAsSent(next: seq<Field>, patch: seq<Field>)
  {
    PatchedTree(Patching(next, []), patch) == Patching(Patched(next, patch), [])
  }

  /** Where the prototype is left alone, each step is the one asked for. */
  lemma {:induction false} StepIsAsSent(next: seq<Field>, sent: Field)
    requires DistinctKeys(next) && WellFormed(sent.value) && !TakesPrototype(next, sent)
    requires sent.value.Obj? ==> IsAsSent(SubTree(Get(next, sent.key)), sent.value.fields)
    ensures StepTree(Patching(next, []), sent) == Patching(PatchOne(next, sent), [])
  {
    if !HasKey(next, sent.key) {
      GetMisses(next, sent.key);
    }
  }

  lemma {:induction false} HarmlessGoesOn(next: seq<Field>, patch: seq<Field>)
    requires DistinctKeys(next) && WellFormed(Obj(patch)) && patch != [] && Harmless(next, patch)
    ensures Harmless(PatchOne(next, patch[0]), patch[1..])
  {
    forall sent | sent in patch[1..]
      ensures HasKey(PatchOne(next, patch[0]), sent.key) == HasKey(next, sent.key)
      ensures Get(PatchOne(next, patch[0]), sent.key) == Get(next, sent.key)
    {
      assert sent in patch && sent.key != patch[0].key;
      PatchOneAt(next, patch[0], sent.key);
      if !HasKey(next, sent.key) {
        GetMisses(next, sent.key);
        GetMisses(PatchOne(next, patch[0]), sent.key);
      }
    }
    assert forall sent :: sent in patch[1..] ==> sent in patch;
  }

  lemma {:induction false} PatchedIsWellFormed(next: seq<Field>, patch: seq<Field>)
    requires WellFormed(Obj(next)) && WellFormed(Obj(patch))
    ensures WellFormed(Obj(Patched(next, patch)))
    decreases patch
  {
    var r := Patched(next, patch);
    PatchedAt(next, patch, "");
    forall f | f in r
      ensures WellFormed(f.value)
    {
      GetFinds(r, f);
      PatchedAt(next, patch, f.key);
      if HasKey(next, f.key) {
        GetIsAField(next, f.key);
      }
      if HasKey(patch, f.key) {
        GetIsAField(patch, f.key);
        if Get(patch, f.key).Obj? {
          PatchedIsWellFormed(if HasKey(next, f.key) then SubTree(Get(next, f.key)) else [], Get(patch, f.key).fields);
        }
      } else {
        GetMisses(patch, f.key);
      }
    }
  }

  lemma {:induction false} HarmlessIsAsSent(next: seq<Field>, patch: seq<Field>)
    requires DistinctKeys(next) && WellFormed(Obj(next)) && WellFormed(Obj(patch)) && Harmless(next, patch)
    ensures IsAsSent(next, patch)
    decreases patch
  {
    if patch != [] {
      var sent := patch[0];
      var below := SubTree(Get(next, sent.key));
      assert sent in patch;
      SubTreeIsWellFormed(next, sent.key);
      if sent.value.Obj? {
        HarmlessIsAsSent(below, sent.value.fields);
      }
      StepIsAsSent(next, sent);
      HarmlessGoesOn(next, patch);
      PatchedIsWellFormed(next, [sent]);
      assert PatchOne(next, sent) == Patched(next, [sent]);
      HarmlessIsAsSent(PatchOne(next, sent), patch[1..]);
    }
  }

  /** No patch gives an object a key `__proto__` it lacks. */
  lemma {:induction false} PrototypeStaysAway(next: Patching, patch: seq<Field>, prototype: string)
    requires DistinctKeys(next.own) && prototype == "__proto__" && !HasKey(next.own, prototype)
    ensures !HasKey(PatchedTree(next, patch).own, prototype)
    decreases patch
  {
    if patch != [] {
      var sent := patch[0];
      DeleteAt(next.own, sent.key, prototype);
      PutAt(next.own, sent.key, sent.value, prototype);
      if sent.value.Obj? {
        var child := PatchedTree(Patching(SubTree(Answer(next, sent.key)), []), sent.value.fields);
        PutAt(next.own, sent.key, Obj(child.own), prototype);
      }
      PrototypeStaysAway(StepTree(next, sent), patch[1..], prototype);
    }
  }

  /** What the patch of a tree leaves under one key. */
  function TreeValue(held: Option<Json>, sent: Json): Option<Json>
  {
    match sent
    case Undefined => held
    case Null => None
    case Obj(below) =>
      var child := PatchedTree(Patching(if held.Some? then SubTree(held.value) else [], []), below).own;
      if child != [] then Some(Obj(child)) else None
    case _ => Some(sent)
  }

  lemma {:induction false} StepTreeAt(next: seq<Field>, sent: Field, k: string)
    requires DistinctKeys(next) && WellFormed(sent.value) && !TakesPrototype(next, sent)
    ensures var r := StepTree(Patching(next, []), sent);
            && r.inherited == [] && DistinctKeys(r.own)
            && At(r.own, k) == if k == sent.key then TreeValue(At(next, k), sent.value) else At(next, k)
  {
    DeleteAt(next, sent.key, k);
    PutAt(next, sent.key, sent.value, k);
    if !HasKey(next, sent.key) {
      GetMisses(next, sent.key);
    }
    if sent.value.Obj? {
      if sent.key == "__proto__" && !HasKey(next, sent.key) {
        EmptyingIsHarmless(sent.value.fields);
        HarmlessIsAsSent([], sent.value.fields);
      }
      PutAt(next, sent.key, Obj(PatchedTree(Patching(SubTree(Get(next, sent.key)), []), sent.value.fields).own), k);
    }
  }

  /** Where no key takes the prototype, each key is patched by itself. */
  lemma {:induction false} TreeAt(next: seq<Field>, patch: seq<Field>, k: string)
    requires DistinctKeys(next) && WellFormed(Obj(patch)) && forall sent :: sent in patch ==> !TakesPrototype(next, sent)
    ensures PatchedTree(Patching(next, []), patch).inherited == []
    ensures At(PatchedTree(Patching(next, []), patch).own, k) == TreeValue(At(next, k), Get(patch, k))
    decreases patch
  {
    if patch != [] {
      var step := StepTree(Patching(next, []), patch[0]).own;
      assert patch[0] in patch;
      StepTreeAt(next, patch[0], k);
      forall sent | sent in patch[1..]
        ensures !TakesPrototype(step, sent)
      {
        assert sent in patch && sent.key != patch[0].key;
        StepTreeAt(next, patch[0], sent.key);
      }
      assert forall sent :: sent in patch[1..] ==> sent in patch;
      TreeAt(step, patch[1..], k);
      if patch[0].key == k {
        assert !HasKey(patch[1..], k);
        GetMisses(patch[1..], k);
      }
    }
  }

  lemma {:induction false} TakingShows(stored: seq<Field>, patch: seq<Field>, taking: Field)
    requires DistinctKeys(stored) && WellFormed(Obj(patch)) && taking in patch && TakesPrototype(stored, taking)
    ensures PatchedTree(Patching(stored, []), patch).own != Patched(stored, patch)
  {
    PatchedAt(stored, patch, taking.key);
    GetFinds(patch, taking);
    PrototypeStaysAway(Patching(stored, []), patch, taking.key);
  }

  /** A tree patched wrongly shows in the tree that holds it. */
  lemma {:induction false} ChildShows(stored: seq<Field>, patch: seq<Field>, sent: Field)
    requires DistinctKeys(stored) && WellFormed(Obj(patch)) && sent in patch && sent.value.Obj?
    requires forall f :: f in patch ==> !TakesPrototype(stored, f)
    requires var held := SubTree(Get(stored, sent.key));
             PatchedTree(Patching(held, []), sent.value.fields).own != Patched(held, sent.value.fields)
    ensures PatchedTree(Patching(stored, []), patch).own != Patched(stored, patch)
  {
    if !HasKey(stored, sent.key) {
      GetMisses(stored, sent.key);
    }
    GetFinds(patch, sent);
    TreeAt(stored, patch, sent.key);
    PatchedAt(stored, patch, sent.key);
  }

  lemma {:induction false} HarmShows(stored: seq<Field>, patch: seq<Field>)
    requires WellFormed(Obj(stored)) && WellFormed(Obj(patch)) && !Harmless(stored, patch)
    ensures PatchedTree(Patching(stored, []), patch).own != Patched(stored, patch)
    decreases patch
  {
    if taking :| taking in patch && TakesPrototype(stored, taking) {
      TakingShows(stored, patch, taking);
    } else {
      var sent :| sent in patch && sent.value.Obj? && !Harmless(SubTree(Get(stored, sent.key)), sent.value.fields);
      SubTreeIsWellFormed(stored, sent.key);
      HarmShows(SubTree(Get(stored, sent.key)), sent.value.fields);
      ChildShows(stored, patch, sent);
    }
  }

  lemma {:induction false} SubTreeIsWellFormed(fields: seq<Field>, key: string)
    requires WellFormed(Obj(fields))
    ensures WellFormed(Obj(SubTree(Get(fields, key))))
  {
    if HasKey(fields, key) {
      GetIsAField(fields, key);
    } else {
      GetMisses(fields, key);
    }
  }

  /** The save does what its keys ask if and only if no tree of it takes a prototype. */
  lemma {:induction false} SaveIsAsSentIffHarmless(stored: seq<Field>, patch: seq<Field>)
    requires WellFormed(Obj(stored)) && WellFormed(Obj(patch))
    ensures PatchedTree(Patching(stored, []), patch).own == Patched(stored, patch) <==> Harmless(stored, patch)
  {
    if Harmless(stored, patch) {
      HarmlessIsAsSent(stored, patch);
    } else {
      HarmShows(stored, patch);
    }
  }

  /** A tree sent under `__proto__` is lost, and lends its trees to the keys sent after it. */
  lemma {:induction false} PrototypeLends(prototype: string, a: string, b: string, c: string, x: bool, y: bool)
    requires prototype == "__proto__" && a != prototype && b != prototype && c != prototype && b != c
    ensures Save(Null, Obj([Field(prototype, Obj([Field(a, Obj([Field(b, Bool(x))]))])), Field(a, Obj([Field(c, Bool(y))]))]))
         == Obj([Field(a, Obj([Field(b, Bool(x)), Field(c, Bool(y))]))])
  {
    var none := Patching([], []);
    var fb, fc := Field(b, Bool(x)), Field(c, Bool(y));
    var fa := Field(a, Obj([fb]));
    assert PatchedTree(none, [fb]) == Patching([fb], []) by { OneStep(none, fb); }
    assert PatchedTree(none, [fa]) == Patching([fa], []) by { OneStep(none, fa); }
    var lent := Field(prototype, Obj([fa]));
    assert StepTree(none, lent) == Patching([], [fa]);
    assert PatchedTree(Patching([fb], []), [fc]) == Patching([fb, fc], []) by {
      assert [fb][1..] == [] && Put([fb], c, Bool(y)) == [fb] + Put([], c, Bool(y));
      OneStep(Patching([fb], []), fc);
    }
    var sent := Field(a, Obj([fc]));
    assert StepTree(Patching([], [fa]), sent) == Patching([Field(a, Obj([fb, fc]))], [fa]);
    assert [lent, sent][1..] == [sent];
    OneStep(Patching([], [fa]), sent);
  }

  lemma {:induction false} OneStep(next: Patching, sent: Field)
    ensures PatchedTree(next, [sent]) == StepTree(next, sent)
  {
    assert [sent][1..] == [];
  }

  // ---- every reachable stored value ----

  /** No null and no value missing at any leaf, and no empty object at any depth. */
  ghost predicate Clean(v: Json)
  {
    match v
    case Undefined => false
    case Null => false
    case NaN => false
    case Infinite(_) => false
    case Arr(items) => WellFormed(v)
    case Obj(fields) => fields != [] && CleanFields(fields)
    case _ => true
  }

  ghost predicate CleanFields(fields: seq<Field>)
  {
    DistinctKeys(fields) && forall f :: f in fields ==> Clean(f.value)
  }

  lemma {:induction false} CleanAt(fields: seq<Field>, k: string)
    requires CleanFields(fields) && HasKey(fields, k)
    ensures Clean(Get(fields, k))
  {
    GetIsAField(fields, k);
  }

  /** No leaf is a number that is not finite: a save arrives as JSON, which has none. */
  ghost predicate Finite(v: Json)
  {
    match v
    case NaN => false
    case Infinite(_) => false
    case Obj(fields) => forall f :: f in fields ==> Finite(f.value)
    case _ => true
  }

  /** A save as it arrives: an object. */
  ghost predicate Patch(v: Json)
  {
    v.Obj? && WellFormed(v) && Finite(v)
  }

  /** Own and inherited trees alike are clean. */
  ghost predicate CleanPatching(next: Patching)
  {
    CleanFields(next.own) && forall f :: f in next.inherited ==> Clean(f.value)
  }

  lemma {:induction false} AnswerIsClean(next: Patching, key: string)
    requires CleanPatching(next)
    ensures CleanFields(SubTree(Answer(next, key)))
  {
    var held := Answer(next, key);
    if HasKey(next.own, key) {
      GetIsAField(next.own, key);
      assert Clean(held);
    } else if HasKey(next.inherited, key) {
      GetIsAField(next.inherited, key);
      assert Clean(held);
    } else {
      GetMisses(next.inherited, key);
    }
    SubTreeIsClean(held);
  }

  lemma {:induction false} SubTreeIsClean(v: Json)
    requires Clean(v) || v.Undefined?
    ensures CleanFields(SubTree(v))
  {
  }

  lemma {:induction false} AssignKeepsClean(next: Patching, key: string, value: Json, lent: seq<Field>)
    requires CleanPatching(next) && Clean(value) && forall f :: f in lent ==> Clean(f.value)
    ensures CleanPatching(Assign(next, key, value, lent))
  {
    PutAt(next.own, key, value, key);
    PutHolds(next.own, key, value);
  }

  lemma {:induction false} RemoveKeepsClean(next: Patching, key: string)
    requires CleanPatching(next)
    ensures CleanPatching(Remove(next, key))
  {
    DeleteAt(next.own, key, key);
    DeleteHolds(next.own, key);
  }

  lemma {:induction false} PatchKeepsClean(next: Patching, patch: seq<Field>)
    requires CleanPatching(next) && Patch(Obj(patch))
    ensures CleanPatching(PatchedTree(next, patch))
    decreases patch, 1
  {
    if patch != [] {
      assert patch[0] in Obj(patch).fields;
      StepKeepsClean(next, patch[0]);
      assert forall f :: f in patch[1..] ==> f in Obj(patch).fields;
      assert Patch(Obj(patch[1..]));
      PatchKeepsClean(StepTree(next, patch[0]), patch[1..]);
    }
  }

  lemma {:induction false} StepKeepsClean(next: Patching, sent: Field)
    requires CleanPatching(next) && WellFormed(sent.value) && Finite(sent.value)
    ensures CleanPatching(StepTree(next, sent))
    decreases sent, 0
  {
    match sent.value
    case Undefined =>
    case Null => RemoveKeepsClean(next, sent.key);
    case Obj(below) =>
      AnswerIsClean(next, sent.key);
      var start := Patching(SubTree(Answer(next, sent.key)), []);
      PatchKeepsClean(start, below);
      var child := PatchedTree(start, below);
      if child.own != [] {
        AssignKeepsClean(next, sent.key, Obj(child.own), child.own + child.inherited);
      } else {
        RemoveKeepsClean(next, sent.key);
      }
    case _ => AssignKeepsClean(next, sent.key, sent.value, next.inherited);
  }

  /** What a Tournament stores: null, or a clean tree of changes. */
  ghost predicate Stored(v: Json)
  {
    v.Null? || (v.Obj? && Clean(v))
  }

  lemma {:induction false} SaveKeepsStored(stored: Json, patch: Json)
    requires Stored(stored) && Patch(patch)
    ensures Stored(Save(stored, patch))
  {
    PatchKeepsClean(Patching(SubTree(stored), []), patch.fields);
  }

  /** The stored changes after a history of saves, starting from nothing. */
  function AfterSaves(patches: seq<Json>): Json
  {
    if patches == [] then Null else Save(AfterSaves(patches[..|patches| - 1]), patches[|patches| - 1])
  }

  /** No history of saves leaves a null, a missing value or an empty object behind. */
  lemma {:induction false} EveryHistoryIsClean(patches: seq<Json>)
    requires forall p :: p in patches ==> Patch(p)
    ensures Stored(AfterSaves(patches))
  {
    if patches != [] {
      EveryHistoryIsClean(patches[..|patches| - 1]);
      assert patches[|patches| - 1] in patches;
      SaveKeepsStored(AfterSaves(patches[..|patches| - 1]), patches[|patches| - 1]);
    }
  }
}
