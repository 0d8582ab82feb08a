/** JSON values (include/json.hpp).  Objects keep insertion order and may repeat
    keys; lookup takes the first.  Floating-point numbers are not modelled. */
module JsonValue {
  import opened Orders

  datatype Json =
    | Null
    | Bool(flag: bool)
    | Int(number: int)
    | String(text: string)
    | Array(elements: seq<Json>)
    | Object(members: seq<Member>)
  {
    function Find(key: string): Option<Json> {
      if Object? then FindIn(members, key) else None
    }

    function AsInt(): int {
      if Int? then number else 0
    }

    function AsString(): string {
      if String? then text else ""
    }
  }

  datatype Member = Member(key: string, value: Json)

  function FindIn(members: seq<Member>, key: string): Option<Json> {
    if members == [] then None
    else if members[0].key == key then Some(members[0].value)
    else FindIn(members[1..], key)
  }

  /** Lookup passes over a member with another key. */
  lemma {:induction false} FindNext(key: string, value: Json, rest: seq<Member>, wanted: string)
    ensures FindIn([Member(key, value)] + rest, wanted) == if key == wanted then Some(value) else FindIn(rest, wanted)
  {
    assert ([Member(key, value)] + rest)[1..] == rest;
  }

  /** Lookup finds the first member with the key. */
  lemma {:induction false} FindAt(members: seq<Member>, k: nat, wanted: string)
    requires k < |members| && members[k].key == wanted
    requires forall i :: 0 <= i < k ==> members[i].key != wanted
    ensures FindIn(members, wanted) == Some(members[k].value)
    decreases k
  {
    if k > 0 {
      FindAt(members[1..], k - 1, wanted);
    }
  }
}
