// Reading a tree by key paths: leaves, prefixes, and when agreeing at every leaf is being the same.
module JsonPaths {
  import opened Options
  import opened Json
  import opened JsonObjects

  type Path = seq<string>

  /** What `root` holds at `path`, own keys only. */
  function Look(root: Json, path: Path): Option<Json>
    decreases |path|
  {
    if path == [] then Some(root)
    else if root.Obj? && HasKey(root.fields, path[0]) then Look(Get(root.fields, path[0]), path[1..])
    else None
  }

  predicate NonEmptyObject(v: Json)
  {
    v.Obj? && v.fields != []
  }

  /** Every leaf below `prefix`, in key order: a leaf is anything but a non-empty object. */
  function Leaves(v: Json, prefix: Path): seq<Path>
    decreases v, 1
  {
    if NonEmptyObject(v) then LeavesOfFields(v.fields, prefix)
    else if prefix != [] then [prefix]
    else []
  }

  function LeavesOfFields(fields: seq<Field>, prefix: Path): seq<Path>
    decreases fields, 0
  {
    if fields == [] then []
    else Leaves(fields[0].value, prefix + [fields[0].key]) + LeavesOfFields(fields[1..], prefix)
  }

  /** The walk that pushes each leaf on `out`. */
  method LeavesOf(v: Json, prefix: Path, out: seq<Path>) returns (r: seq<Path>)
    ensures r == out + Leaves(v, prefix)
    decreases v
  {
    r := out;
    if v.Obj? && |v.fields| > 0 {
      var i := 0;
      assert v.fields[0..] == v.fields;
      while i < |v.fields|
        invariant 0 <= i <= |v.fields|
        invariant r + LeavesOfFields(v.fields[i..], prefix) == out + LeavesOfFields(v.fields, prefix)
      {
        ghost var before := r;
        ghost var below := Leaves(v.fields[i].value, prefix + [v.fields[i].key]);
        r := LeavesOf(v.fields[i].value, prefix + [v.fields[i].key], r);
        assert v.fields[i..][1..] == v.fields[i + 1..];
        assert r + LeavesOfFields(v.fields[i + 1..], prefix)
            == before + (below + LeavesOfFields(v.fields[i + 1..], prefix));
        i := i + 1;
      }
    } else if |prefix| > 0 {
      r := out + [prefix];
    }
  }

  predicate IsPrefix(path: Path, leaf: Path)
  {
    |path| <= |leaf| && forall i :: 0 <= i < |path| ==> path[i] == leaf[i]
  }

  /** A leaf that some listed path names, or names a tree around. */
  predicate Covered(listed: seq<Path>, leaf: Path)
  {
    exists i :: 0 <= i < |listed| && IsPrefix(listed[i], leaf)
  }

  /** A path from a value down to a leaf. */
  predicate IsLeaf(v: Json, path: Path)
    decreases |path|
  {
    if path == [] then !NonEmptyObject(v)
    else v.Obj? && HasKey(v.fields, path[0]) && IsLeaf(Get(v.fields, path[0]), path[1..])
  }

  lemma {:induction false} LeavesAreTheLeaves(v: Json, prefix: Path, path: Path)
    requires WellFormed(v)
    ensures prefix + path in Leaves(v, prefix) <==> IsLeaf(v, path) && prefix + path != []
    ensures forall p :: p in Leaves(v, prefix) ==> IsPrefix(prefix, p)
    decreases v, 1
  {
    if NonEmptyObject(v) {
      FieldLeavesAreTheLeaves(v.fields, prefix, path);
    } else if path != [] {
      assert |prefix + path| > |prefix|;
    } else {
      assert prefix + path == prefix;
    }
  }

  lemma {:induction false} FieldLeavesAreTheLeaves(fields: seq<Field>, prefix: Path, path: Path)
    requires DistinctKeys(fields) && forall f :: f in fields ==> WellFormed(f.value)
    ensures prefix + path in LeavesOfFields(fields, prefix)
       <==> path != [] && HasKey(fields, path[0]) && IsLeaf(Get(fields, path[0]), path[1..])
    ensures forall p :: p in LeavesOfFields(fields, prefix) ==> IsPrefix(prefix, p)
    decreases fields, 0
  {
    if fields != [] {
      var f := fields[0];
      var below := prefix + [f.key];
      FieldLeavesAreTheLeaves(fields[1..], prefix, path);
      LeavesAreTheLeaves(f.value, below, if path == [] then [] else path[1..]);
      BelowKey(Leaves(f.value, below), prefix, f.key);
      if path == [] {
        assert prefix + path !in Leaves(f.value, below);
      } else if path[0] == f.key {
        assert below + path[1..] == prefix + path;
        assert !HasKey(fields[1..], f.key);
      } else {
        assert (prefix + path)[|prefix|] == path[0];
        assert prefix + path !in Leaves(f.value, below);
        assert HasKey(fields, path[0]) <==> HasKey(fields[1..], path[0]);
      }
    }
  }

  lemma {:induction false} BelowKey(paths: seq<Path>, prefix: Path, key: string)
    requires forall p :: p in paths ==> IsPrefix(prefix + [key], p)
    ensures forall p :: p in paths ==> IsPrefix(prefix, p) && |p| > |prefix| && p[|prefix|] == key
  {
    var below := prefix + [key];
    assert below[|prefix|] == key && forall i :: 0 <= i < |prefix| ==> below[i] == prefix[i];
  }

  predicate NoRepeat(paths: seq<Path>)
  {
    forall i, j :: 0 <= i < j < |paths| ==> paths[i] != paths[j]
  }

  lemma {:induction false} LeavesDoNotRepeat(v: Json, prefix: Path)
    requires WellFormed(v)
    ensures NoRepeat(Leaves(v, prefix))
    decreases v, 1
  {
    if NonEmptyObject(v) {
      FieldLeavesDoNotRepeat(v.fields, prefix);
    }
  }

  lemma {:induction false} FieldLeavesDoNotRepeat(fields: seq<Field>, prefix: Path)
    requires DistinctKeys(fields) && forall f :: f in fields ==> WellFormed(f.value)
    ensures NoRepeat(LeavesOfFields(fields, prefix))
    decreases fields, 0
  {
    if fields != [] {
      var below, rest := prefix + [fields[0].key], fields[1..];
      LeavesDoNotRepeat(fields[0].value, below);
      FieldLeavesDoNotRepeat(rest, prefix);
      LeavesAreTheLeaves(fields[0].value, below, []);
      forall p | p in LeavesOfFields(rest, prefix)
        ensures p !in Leaves(fields[0].value, below)
      {
        FieldLeavesAreTheLeaves(rest, prefix, []);
        FieldLeavesAreTheLeaves(rest, prefix, p[|prefix|..]);
        assert prefix + p[|prefix|..] == p;
        assert below[|prefix|] == fields[0].key;
        assert |p| > |prefix| && p[|prefix|] != fields[0].key;
      }
      NoneRepeatsInBoth(Leaves(fields[0].value, below), LeavesOfFields(rest, prefix));
    }
  }

  lemma {:induction false} NoneRepeatsInBoth(left: seq<Path>, right: seq<Path>)
    requires NoRepeat(left) && NoRepeat(right) && forall p :: p in right ==> p !in left
    ensures NoRepeat(left + right)
  {
    var all := left + right;
    forall i, j | 0 <= i < j < |all|
      ensures all[i] != all[j]
    {
      if i < |left| <= j {
        assert all[i] in left && all[j] in right;
      }
    }
  }

  /** Some leaf lies under every value. */
  lemma {:induction false} SomeLeaf(v: Json) returns (path: Path)
    requires WellFormed(v)
    ensures IsLeaf(v, path)
    decreases v
  {
    path := [];
    if NonEmptyObject(v) {
      var f := v.fields[0];
      var rest := SomeLeaf(f.value);
      path := [f.key] + rest;
      GetFinds(v.fields, f);
    }
  }

  /** Two trees read alike at a path: absent from both, or the same value in both. */
  ghost predicate AgreeAt(a: Json, b: Json, path: Path)
  {
    match (Look(a, path), Look(b, path))
    case (None, None) => true
    case (Some(x), Some(y)) => Same(x, y)
    case _ => false
  }

  lemma {:induction false} SameAgreesEverywhere(a: Json, b: Json, path: Path)
    requires WellFormed(a) && WellFormed(b) && Same(a, b)
    ensures AgreeAt(a, b, path)
    decreases |path|
  {
    if path != [] && a.Obj? && b.Obj? {
      var k := path[0];
      assert HasKey(a.fields, k) <==> HasKey(b.fields, k);
      if HasKey(a.fields, k) {
        GetIsAField(a.fields, k);
        GetIsAField(b.fields, k);
        SameAgreesEverywhere(Get(a.fields, k), Get(b.fields, k), path[1..]);
      }
    }
  }

  lemma {:induction false} LeafIsThere(v: Json, path: Path)
    requires IsLeaf(v, path)
    ensures Look(v, path).Some?
    decreases |path|
  {
    if path != [] {
      LeafIsThere(Get(v.fields, path[0]), path[1..]);
    }
  }

  /** Two objects that read alike at every leaf of either are the same. */
  lemma {:induction false} AgreeingAtLeavesIsSame(a: Json, b: Json)
    requires a.Obj? && b.Obj? && WellFormed(a) && WellFormed(b)
    requires forall p :: p != [] && (IsLeaf(a, p) || IsLeaf(b, p)) ==> AgreeAt(a, b, p)
    ensures Same(a, b)
    decreases a, 1
  {
    forall f | f in a.fields
      ensures HasKey(b.fields, f.key) && Same(f.value, Get(b.fields, f.key))
    {
      LeafKeyIsShared(a, b, f);
      GetIsAField(b.fields, f.key);
      GetFinds(a.fields, f);
      ChildrenAgree(a, b, f.key);
      ChildIsSame(f.value, Get(b.fields, f.key));
    }
    forall f | f in b.fields
      ensures HasKey(a.fields, f.key)
    {
      forall p | p != [] && (IsLeaf(a, p) || IsLeaf(b, p))
        ensures AgreeAt(b, a, p)
      {
        assert AgreeAt(a, b, p);
        AgreeingIsMutual(a, b, p);
      }
      LeafKeyIsShared(b, a, f);
    }
  }

  lemma {:induction false} ChildIsSame(x: Json, y: Json)
    requires WellFormed(x) && WellFormed(y)
    requires forall q :: IsLeaf(x, q) || IsLeaf(y, q) ==> AgreeAt(x, y, q)
    ensures Same(x, y)
    decreases x, 2
  {
    if NonEmptyObject(x) && NonEmptyObject(y) {
      AgreeingAtLeavesIsSame(x, y);
    } else {
      assert IsLeaf(x, []) || IsLeaf(y, []);
      assert AgreeAt(x, y, []);
    }
  }

  lemma {:induction false} LeafKeyIsShared(a: Json, b: Json, f: Field)
    requires a.Obj? && b.Obj? && WellFormed(a) && WellFormed(b) && f in a.fields
    requires forall p :: p != [] && (IsLeaf(a, p) || IsLeaf(b, p)) ==> AgreeAt(a, b, p)
    ensures HasKey(b.fields, f.key)
  {
    var q := SomeLeaf(f.value);
    var p := [f.key] + q;
    GetFinds(a.fields, f);
    assert p[1..] == q;
    assert IsLeaf(a, p);
    LeafIsThere(a, p);
    assert AgreeAt(a, b, p);
  }

  lemma {:induction false} ChildrenAgree(a: Json, b: Json, k: string)
    requires a.Obj? && b.Obj? && HasKey(a.fields, k) && HasKey(b.fields, k)
    requires forall p :: p != [] && (IsLeaf(a, p) || IsLeaf(b, p)) ==> AgreeAt(a, b, p)
    ensures forall q :: IsLeaf(Get(a.fields, k), q) || IsLeaf(Get(b.fields, k), q)
                    ==> AgreeAt(Get(a.fields, k), Get(b.fields, k), q)
  {
    forall q | IsLeaf(Get(a.fields, k), q) || IsLeaf(Get(b.fields, k), q)
      ensures AgreeAt(Get(a.fields, k), Get(b.fields, k), q)
    {
      var p := [k] + q;
      assert p[1..] == q;
      assert IsLeaf(a, p) || IsLeaf(b, p);
      assert AgreeAt(a, b, p);
    }
  }

  lemma {:induction false} SameIsMutual(a: Json, b: Json)
    requires WellFormed(a) && WellFormed(b) && Same(a, b)
    ensures Same(b, a)
    decreases a
  {
    if a.Arr? {
      forall i | 0 <= i < |a.items| ensures Same(b.items[i], a.items[i]) { SameIsMutual(a.items[i], b.items[i]); }
    } else if a.Obj? {
      forall g | g in b.fields
        ensures HasKey(a.fields, g.key) && Same(g.value, Get(a.fields, g.key))
      {
        GetFinds(b.fields, g);
        GetIsAField(a.fields, g.key);
        SameIsMutual(Get(a.fields, g.key), g.value);
      }
    }
  }

  lemma {:induction false} AgreeingIsMutual(a: Json, b: Json, path: Path)
    requires WellFormed(a) && WellFormed(b) && AgreeAt(a, b, path)
    ensures AgreeAt(b, a, path)
  {
    if Look(a, path).Some? {
      LookIsWellFormed(a, path);
      LookIsWellFormed(b, path);
      SameIsMutual(Look(a, path).value, Look(b, path).value);
    }
  }

  lemma {:induction false} LookIsWellFormed(v: Json, path: Path)
    requires WellFormed(v) && Look(v, path).Some?
    ensures WellFormed(Look(v, path).value)
    decreases |path|
  {
    if path != [] {
      GetIsAField(v.fields, path[0]);
      LookIsWellFormed(Get(v.fields, path[0]), path[1..]);
    }
  }

  lemma {:induction false} LookGoesOn(v: Json, path: Path, more: Path)
    requires Look(v, path).Some?
    ensures Look(v, path + more) == Look(Look(v, path).value, more)
    decreases |path|
  {
    if path == [] {
      assert path + more == more;
    } else {
      assert (path + more)[1..] == path[1..] + more;
      LookGoesOn(Get(v.fields, path[0]), path[1..], more);
    }
  }

  lemma {:induction false} LookStops(v: Json, path: Path, more: Path)
    requires Look(v, path).None?
    ensures Look(v, path + more).None?
    decreases |path|
  {
    assert (path + more)[1..] == path[1..] + more;
    if v.Obj? && HasKey(v.fields, path[0]) {
      LookStops(Get(v.fields, path[0]), path[1..], more);
    }
  }

  /** Trees that agree at a path agree at everything under it. */
  lemma {:induction false} AgreeingGoesDown(a: Json, b: Json, path: Path, leaf: Path)
    requires WellFormed(a) && WellFormed(b)
    requires AgreeAt(a, b, path) && IsPrefix(path, leaf)
    ensures AgreeAt(a, b, leaf)
  {
    var more := leaf[|path|..];
    assert leaf == path + more;
    if Look(a, path).Some? {
      LookGoesOn(a, path, more);
      LookGoesOn(b, path, more);
      LookIsWellFormed(a, path);
      LookIsWellFormed(b, path);
      SameAgreesEverywhere(Look(a, path).value, Look(b, path).value, more);
    } else {
      LookStops(a, path, more);
      LookStops(b, path, more);
    }
  }

  /** A leaf under what a path leads to is a leaf under the path. */
  lemma {:induction false} LeafGoesOn(v: Json, path: Path, more: Path)
    requires Look(v, path).Some? && IsLeaf(Look(v, path).value, more)
    ensures IsLeaf(v, path + more)
    decreases |path|
  {
    if path == [] {
      assert path + more == more;
    } else {
      assert (path + more)[1..] == path[1..] + more;
      LeafGoesOn(Get(v.fields, path[0]), path[1..], more);
    }
  }

  /** Trees that agree at every leaf under a path agree at the path. */
  lemma {:induction false} LeavesDecideThePath(a: Json, b: Json, path: Path)
    requires WellFormed(a) && WellFormed(b)
    requires forall p :: IsPrefix(path, p) && (IsLeaf(a, p) || IsLeaf(b, p)) ==> AgreeAt(a, b, p)
    ensures AgreeAt(a, b, path)
  {
    if Look(a, path).Some? && Look(b, path).Some? {
      var x, y := Look(a, path).value, Look(b, path).value;
      LookIsWellFormed(a, path);
      LookIsWellFormed(b, path);
      forall q | IsLeaf(x, q) || IsLeaf(y, q)
        ensures AgreeAt(x, y, q)
      {
        LeafUnderAgrees(a, b, path, q);
      }
      ChildIsSame(x, y);
    } else if Look(a, path).Some? {
      LeafOnOneSide(a, b, path);
    } else if Look(b, path).Some? {
      LeafOnOneSide(b, a, path);
    }
  }

  lemma {:induction false} LeafUnderAgrees(a: Json, b: Json, path: Path, q: Path)
    requires Look(a, path).Some? && Look(b, path).Some?
    requires IsLeaf(Look(a, path).value, q) || IsLeaf(Look(b, path).value, q)
    requires forall p :: IsPrefix(path, p) && (IsLeaf(a, p) || IsLeaf(b, p)) ==> AgreeAt(a, b, p)
    ensures AgreeAt(Look(a, path).value, Look(b, path).value, q)
  {
    if IsLeaf(Look(a, path).value, q) {
      LeafGoesOn(a, path, q);
    } else {
      LeafGoesOn(b, path, q);
    }
    assert AgreeAt(a, b, path + q);
    LookGoesOn(a, path, q);
    LookGoesOn(b, path, q);
  }

  /** What is there on one side only shows in some leaf. */
  lemma {:induction false} LeafOnOneSide(a: Json, b: Json, path: Path)
    requires WellFormed(a) && Look(a, path).Some? && Look(b, path).None?
    ensures exists p :: IsPrefix(path, p) && IsLeaf(a, p) && Look(a, p).Some? && Look(b, p).None?
  {
    LookIsWellFormed(a, path);
    var q := SomeLeaf(Look(a, path).value);
    LeafGoesOn(a, path, q);
    LeafIsThere(a, path + q);
    LookStops(b, path, q);
    assert IsPrefix(path, path + q);
  }

  // ---- one leaf exchanged for another ----

  function SetLeaf(v: Json, path: Path, x: Json): Json
    requires IsLeaf(v, path)
    decreases |path|
  {
    if path == [] then x else Obj(Put(v.fields, path[0], SetLeaf(Get(v.fields, path[0]), path[1..], x)))
  }

  lemma {:induction false} PutHas(fields: seq<Field>, key: string, value: Json, k: string)
    requires DistinctKeys(fields) && HasKey(fields, key)
    ensures HasKey(Put(fields, key, value), k) <==> HasKey(fields, k)
    ensures HasKey(fields, k) ==> Get(Put(fields, key, value), k) == if k == key then value else Get(fields, k)
    ensures DistinctKeys(Put(fields, key, value)) && Put(fields, key, value) != []
  {
    PutAt(fields, key, value, k);
  }

  lemma {:induction false} SetLeafIsWellFormed(v: Json, path: Path, x: Json)
    requires WellFormed(v) && IsLeaf(v, path) && WellFormed(x)
    ensures WellFormed(SetLeaf(v, path, x))
    decreases |path|
  {
    if path != [] {
      var child := SetLeaf(Get(v.fields, path[0]), path[1..], x);
      GetIsAField(v.fields, path[0]);
      SetLeafIsWellFormed(Get(v.fields, path[0]), path[1..], x);
      PutHas(v.fields, path[0], child, "");
      PutKeepsWellFormed(v.fields, path[0], child);
    }
  }

  lemma {:induction false} PutKeepsWellFormed(fields: seq<Field>, key: string, value: Json)
    requires (forall f :: f in fields ==> WellFormed(f.value)) && WellFormed(value)
    ensures forall f :: f in Put(fields, key, value) ==> WellFormed(f.value)
  {
    if fields != [] && fields[0].key != key {
      PutKeepsWellFormed(fields[1..], key, value);
    }
  }

  /** Exchanging a leaf for a leaf keeps every leaf where it was, in order. */
  lemma {:induction false} SetLeafKeepsLeaves(v: Json, path: Path, x: Json, prefix: Path)
    requires WellFormed(v) && IsLeaf(v, path) && !NonEmptyObject(x)
    ensures Leaves(SetLeaf(v, path, x), prefix) == Leaves(v, prefix)
    decreases |path|
  {
    if path != [] {
      var child := SetLeaf(Get(v.fields, path[0]), path[1..], x);
      GetIsAField(v.fields, path[0]);
      SetLeafKeepsLeaves(Get(v.fields, path[0]), path[1..], x, prefix + [path[0]]);
      PutHas(v.fields, path[0], child, "");
      PutKeepsLeaves(v.fields, path[0], child, prefix);
    }
  }

  lemma {:induction false} PutKeepsLeaves(fields: seq<Field>, key: string, value: Json, prefix: Path)
    requires DistinctKeys(fields) && HasKey(fields, key)
    requires Leaves(value, prefix + [key]) == Leaves(Get(fields, key), prefix + [key])
    ensures LeavesOfFields(Put(fields, key, value), prefix) == LeavesOfFields(fields, prefix)
  {
    AtStep(fields, key);
    var r := Put(fields, key, value);
    if fields[0].key == key {
      assert r[1..] == fields[1..];
    } else {
      PutKeepsLeaves(fields[1..], key, value, prefix);
      assert r[1..] == Put(fields[1..], key, value);
    }
  }

  /** The exchanged leaf reads as the new value, every other leaf as before. */
  lemma {:induction false} SetLeafLook(v: Json, path: Path, x: Json, q: Path)
    requires WellFormed(v) && IsLeaf(v, path) && IsLeaf(v, q)
    ensures Look(SetLeaf(v, path, x), q) == if q == path then Some(x) else Look(v, q)
    decreases |path|
  {
    if path != [] && q != [] {
      var k, child := path[0], SetLeaf(Get(v.fields, path[0]), path[1..], x);
      GetIsAField(v.fields, k);
      if q[0] == k {
        SetLeafLook(Get(v.fields, k), path[1..], x, q[1..]);
        assert q == path <==> q[1..] == path[1..] by {
          assert path == [k] + path[1..] && q == [k] + q[1..];
        }
      }
      PutLook(v.fields, k, child, q);
    }
  }

  lemma {:induction false} PutLook(fields: seq<Field>, key: string, value: Json, q: Path)
    requires DistinctKeys(fields) && HasKey(fields, key) && q != [] && HasKey(fields, q[0])
    ensures Look(Obj(Put(fields, key, value)), q) == if q[0] == key then Look(value, q[1..]) else Look(Obj(fields), q)
  {
    PutHas(fields, key, value, q[0]);
  }
}
