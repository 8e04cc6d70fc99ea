/** Decoded JSON values, the abstract result of `json.loads`.
    An object keeps its members in insertion order, as a Python dict does;
    a decoded object has distinct keys, and `Get` reads the first member with the key. */
module Json {
  import opened Wrappers

  datatype Json =
    | JNull
    | JBool(b: bool)
    | JNum(n: real)
    | JStr(s: string)
    | JArr(items: seq<Json>)
    | JObj(members: seq<Member>)

  datatype Member = Member(key: string, value: Json)

  type Object = seq<Member>

  /** `d.get(key)`: the value of the first member named `key`. */
  function Get(o: Object, key: string): Option<Json>
  {
    if |o| == 0 then None
    else if o[0].key == key then Some(o[0].value)
    else Get(o[1..], key)
  }

  /** `Get` finds a member exactly when one has the key, and what it finds is a member's value. */
  lemma {:induction false} GetSpec(o: Object, key: string)
    ensures Get(o, key).None? <==> forall i :: 0 <= i < |o| ==> o[i].key != key
    ensures Get(o, key).Some? ==> exists i :: 0 <= i < |o| && o[i] == Member(key, Get(o, key).value)
  {
    if |o| > 0 && o[0].key != key {
      GetSpec(o[1..], key);
      assert forall i :: 1 <= i < |o| ==> o[i] == o[1..][i - 1];
      if Get(o, key).Some? {
        var i :| 0 <= i < |o[1..]| && o[1..][i] == Member(key, Get(o, key).value);
        assert o[i + 1] == o[1..][i];
      }
    }
  }

  /** Looking a key up in an object that starts with `m`. */
  lemma GetCons(m: Member, rest: Object, key: string)
    ensures Get([m] + rest, key) == if m.key == key then Some(m.value) else Get(rest, key)
  {
    assert ([m] + rest)[1..] == rest;
  }

  /** The first member with the key is the one `Get` finds. */
  lemma {:induction false} GetAt(o: Object, i: nat, key: string)
    requires i < |o| && o[i].key == key
    requires forall j :: 0 <= j < i ==> o[j].key != key
    ensures Get(o, key) == Some(o[i].value)
  {
    if i > 0 {
      assert forall j :: 0 <= j < i - 1 ==> o[1..][j] == o[j + 1];
      GetAt(o[1..], i - 1, key);
    }
  }

  /** A key absent from a prefix is looked up in what follows it. */
  lemma {:induction false} GetAfter(a: Object, b: Object, key: string)
    requires forall j :: 0 <= j < |a| ==> a[j].key != key
    ensures Get(a + b, key) == Get(b, key)
  {
    if |a| > 0 {
      assert a + b == [a[0]] + (a[1..] + b);
      assert a[0].key != key;
      GetCons(a[0], a[1..] + b, key);
      GetAfter(a[1..], b, key);
    } else {
      assert a + b == b;
    }
  }

  /** `GetCons` for every member and object, for objects written out member by member. */
  lemma ConsLaws()
    ensures forall m: Member, rest: Object, key: string {:trigger Get([m] + rest, key)} ::
      Get([m] + rest, key) == if m.key == key then Some(m.value) else Get(rest, key)
  {
    forall m: Member, rest: Object, key: string
      ensures Get([m] + rest, key) == if m.key == key then Some(m.value) else Get(rest, key)
    {
      GetCons(m, rest, key);
    }
  }

  /** `d.get(key, default)`. */
  function GetOr(o: Object, key: string, default: Json): Json
  {
    Get(o, key).GetOr(default)
  }

  predicate HasKey(o: Object, key: string)
  {
    Get(o, key).Some?
  }

  /** Python truthiness: None, False, 0, "", [] and {} are false. */
  predicate Truthy(j: Json)
  {
    match j
    case JNull => false
    case JBool(b) => b
    case JNum(n) => n != 0.0
    case JStr(s) => s != ""
    case JArr(items) => items != []
    case JObj(members) => members != []
  }

  /** `d[key] = value`: replaces the value in place when the key exists, appends otherwise. */
  function Set(o: Object, key: string, value: Json): (r: Object)
    ensures Get(r, key) == Some(value)
    ensures forall k :: k != key ==> Get(r, k) == Get(o, k)
    ensures HasKey(o, key) ==> |r| == |o|
    ensures !HasKey(o, key) ==> r == o + [Member(key, value)]
  {
    if |o| == 0 then [Member(key, value)]
    else if o[0].key == key then [Member(key, value)] + o[1..]
    else [o[0]] + Set(o[1..], key, value)
  }

  /** No key occurs twice, as in every decoded object and every keyword-argument dict:
      the first member's key does not reappear, and so on for the rest. */
  predicate DistinctKeys(o: Object)
  {
    |o| == 0 || (Get(o[1..], o[0].key).None? && DistinctKeys(o[1..]))
  }

  /** `d.update(other)`: the members of `other` are set one after another, in order. */
  function Update(o: Object, other: Object): (r: Object)
    requires DistinctKeys(other)
    ensures forall k :: HasKey(other, k) ==> Get(r, k) == Get(other, k)
    ensures forall k :: !HasKey(other, k) ==> Get(r, k) == Get(o, k)
    decreases |other|
  {
    if |other| == 0 then o
    else
      var head := other[0];
      var r := Update(Set(o, head.key, head.value), other[1..]);
      r
  }
}
