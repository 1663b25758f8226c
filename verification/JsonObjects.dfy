// Objects that change key by key.
module JsonObjects {
  import opened Options
  import opened Json

  function Put(fields: seq<Field>, key: string, value: Json): seq<Field>
  {
    if fields == [] then [Field(key, value)]
    else if fields[0].key == key then [Field(key, value)] + fields[1..]
    else [fields[0]] + Put(fields[1..], key, value)
  }

  function Delete(fields: seq<Field>, key: string): seq<Field>
  {
    if fields == [] then []
    else if fields[0].key == key then Delete(fields[1..], key)
    else [fields[0]] + Delete(fields[1..], key)
  }

  /** What an object holds under a key: nothing when it lacks the key. */
  function At(fields: seq<Field>, key: string): Option<Json>
  {
    if HasKey(fields, key) then Some(Get(fields, key)) else None
  }

  lemma {:induction false} AtStep(fields: seq<Field>, key: string)
    requires fields != []
    ensures At(fields, key) == if fields[0].key == key then Some(fields[0].value) else At(fields[1..], key)
  {
    assert fields[0] in fields;
    assert HasKey(fields, key) <==> fields[0].key == key || HasKey(fields[1..], key);
  }

  lemma {:induction false} PutAt(fields: seq<Field>, key: string, value: Json, k: string)
    requires DistinctKeys(fields)
    ensures At(Put(fields, key, value), k) == if k == key then Some(value) else At(fields, k)
    ensures DistinctKeys(Put(fields, key, value))
    ensures Put(fields, key, value) != []
  {
    var r := Put(fields, key, value);
    AtStep(r, k);
    if fields != [] {
      AtStep(fields, k);
      if fields[0].key != key {
        PutAt(fields[1..], key, value, k);
        PutAt(fields[1..], key, value, fields[0].key);
        HeadKeepsDistinct(fields[0], Put(fields[1..], key, value), At(fields[1..], fields[0].key));
      }
    } else {
      assert r[1..] == [];
    }
  }

  lemma {:induction false} HeadKeepsDistinct(f: Field, rest: seq<Field>, was: Option<Json>)
    requires DistinctKeys(rest) && At(rest, f.key) == was && was.None?
    ensures DistinctKeys([f] + rest)
  {
    assert forall g :: g in rest ==> g.key != f.key;
  }

  lemma {:induction false} DeleteAt(fields: seq<Field>, key: string, k: string)
    requires DistinctKeys(fields)
    ensures At(Delete(fields, key), k) == if k == key then None else At(fields, k)
    ensures DistinctKeys(Delete(fields, key))
  {
    if fields != [] {
      AtStep(fields, k);
      DeleteAt(fields[1..], key, k);
      if fields[0].key != key {
        AtStep(Delete(fields, key), k);
        DeleteAt(fields[1..], key, fields[0].key);
        assert At(fields[1..], fields[0].key).None?;
        HeadKeepsDistinct(fields[0], Delete(fields[1..], key), None);
      }
    }
  }

  /** Setting a key brings in one field at most, and deleting brings in none. */
  lemma {:induction false} PutHolds(fields: seq<Field>, key: string, value: Json)
    ensures forall f :: f in Put(fields, key, value) ==> f in fields || f == Field(key, value)
  {
    if fields != [] && fields[0].key != key {
      PutHolds(fields[1..], key, value);
    }
  }

  lemma {:induction false} DeleteHolds(fields: seq<Field>, key: string)
    ensures forall f :: f in Delete(fields, key) ==> f in fields
  {
    if fields != [] {
      DeleteHolds(fields[1..], key);
    }
  }
}
