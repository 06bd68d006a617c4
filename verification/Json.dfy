/** JSON values, and event dictionaries kept in insertion order as Python keeps them. */
module Json {
  import opened Prelude

  datatype Value =
    | Null
    | Bool(flag: bool)
    | Num(num: int)
    | Real(amount: real)
    | Str(text: string)
    | List(items: seq<Value>)
    | Obj(members: map<string, Value>)

  /** One event dictionary: its key/value pairs in insertion order. */
  type Fields = seq<(string, Value)>

  function Get(fields: Fields, key: string): Option<Value> {
    if fields == [] then None
    else if fields[0].0 == key then Some(fields[0].1)
    else Get(fields[1..], key)
  }

  /** Assignment to a key: the old position is reused, a new key goes last. */
  function Put(fields: Fields, key: string, value: Value): Fields {
    if fields == [] then [(key, value)]
    else if fields[0].0 == key then [(key, value)] + fields[1..]
    else [fields[0]] + Put(fields[1..], key, value)
  }

  lemma {:induction false} GetAt(fields: Fields, i: nat)
    requires i < |fields| && forall j :: 0 <= j < i ==> fields[j].0 != fields[i].0
    ensures Get(fields, fields[i].0) == Some(fields[i].1)
  {
    if i > 0 {
      assert fields[0].0 != fields[i].0;
      GetAt(fields[1..], i - 1);
    }
  }

  lemma {:induction false} GetNone(fields: Fields, key: string)
    requires forall j :: 0 <= j < |fields| ==> fields[j].0 != key
    ensures Get(fields, key) == None
  {
    if fields != [] {
      assert fields[0].0 != key;
      GetNone(fields[1..], key);
    }
  }

  lemma {:induction false} GetAppend(front: Fields, back: Fields, key: string)
    ensures Get(front + back, key) == if Get(front, key).Some? then Get(front, key) else Get(back, key)
  {
    if front == [] {
      assert front + back == back;
    } else {
      assert (front + back)[0] == front[0] && (front + back)[1..] == front[1..] + back;
      GetAppend(front[1..], back, key);
    }
  }
}
