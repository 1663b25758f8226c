// Objects written as literals: a list of keys, each with its value.
module JsonRecords {
  import opened Json
  import opened JsonText
  import opened JsonPaths

  /** An object literal: its keys in the order written, each with its value. */
  function Record(keys: seq<string>, values: seq<Json>): (r: Json)
    requires |keys| == |values|
    ensures r.Obj? && |r.fields| == |keys|
    ensures forall i :: 0 <= i < |keys| ==> r.fields[i] == Field(keys[i], values[i])
  {
    Obj(seq(|keys|, i requires 0 <= i < |keys| => Field(keys[i], values[i])))
  }

  ghost predicate Distinct(keys: seq<string>)
  {
    forall i, j :: 0 <= i < j < |keys| ==> keys[i] != keys[j]
  }

  /** Objects written with one list of keys are the same exactly when their values are, one by one. */
  lemma {:induction false} RecordsAreSame(keys: seq<string>, vs: seq<Json>, ws: seq<Json>)
    requires Distinct(keys) && |keys| == |vs| == |ws|
    ensures Same(Record(keys, vs), Record(keys, ws)) <==> SameItems(vs, ws)
  {
    var a, b := Record(keys, vs), Record(keys, ws);
    assert DistinctKeys(a.fields) && DistinctKeys(b.fields);
    forall i | 0 <= i < |keys|
      ensures HasKey(a.fields, keys[i])
      ensures HasKey(b.fields, keys[i]) && Get(b.fields, keys[i]) == ws[i]
    {
      assert b.fields[i] in b.fields && a.fields[i] in a.fields;
      GetFinds(b.fields, b.fields[i]);
    }
    if Same(a, b) {
      forall i | 0 <= i < |keys|
        ensures Same(vs[i], ws[i])
      {
        assert a.fields[i] in a.fields;
      }
    }
  }

  lemma {:induction false} RecordIsWellFormed(keys: seq<string>, vs: seq<Json>)
    requires Distinct(keys) && |keys| == |vs| && forall v :: v in vs ==> WellFormed(v)
    ensures WellFormed(Record(keys, vs))
  {
    var r := Record(keys, vs);
    forall f | f in r.fields
      ensures WellFormed(f.value)
    {
      var i :| 0 <= i < |keys| && r.fields[i] == f;
      assert vs[i] in vs;
    }
  }

  lemma {:induction false} RecordLook(keys: seq<string>, vs: seq<Json>, i: nat, rest: Path)
    requires Distinct(keys) && |keys| == |vs| && i < |keys|
    ensures Look(Record(keys, vs), [keys[i]] + rest) == Look(vs[i], rest)
  {
    var r := Record(keys, vs);
    var path := [keys[i]] + rest;
    assert DistinctKeys(r.fields) && r.fields[i] in r.fields;
    GetFinds(r.fields, r.fields[i]);
    assert path[1..] == rest;
  }
}
