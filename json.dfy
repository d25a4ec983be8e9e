/** A small JSON value type for the bodies the gateway sends with `res.json(...)`. */
module Json {
  import opened Results

  /** JSON values. A number is `mantissa / 10^decimals`, so that decimal prices such
      as 1299.99 are represented exactly. Object members keep their insertion order. */
  datatype Json =
    | JNull
    | JBool(b: bool)
    | JNum(mantissa: int, decimals: nat)
    | JStr(s: string)
    | JArr(elems: seq<Json>)
    | JObj(members: seq<(string, Json)>)

  /** An integer JSON number. */
  function JInt(n: int): Json { JNum(n, 0) }

  /** The member names of an object, in order; empty for any other value. */
  function Keys(j: Json): (ks: seq<string>)
    ensures j.JObj? ==> |ks| == |j.members|
    ensures j.JObj? ==> forall i :: 0 <= i < |ks| ==> ks[i] == j.members[i].0
  {
    if j.JObj? then KeysOf(j.members) else []
  }

  function KeysOf(ms: seq<(string, Json)>): (ks: seq<string>)
    ensures |ks| == |ms|
    ensures forall i :: 0 <= i < |ks| ==> ks[i] == ms[i].0
  {
    if ms == [] then [] else [ms[0].0] + KeysOf(ms[1..])
  }

  /** Property access `j.key`: the first member named `key`, or None (JavaScript's
      `undefined`) when `j` is not an object or has no such member. */
  function Get(j: Json, key: string): (r: Option<Json>)
    ensures r.Some? <==> j.JObj? && exists i :: 0 <= i < |j.members| && j.members[i].0 == key
  {
    if j.JObj? then Lookup(j.members, key) else None
  }

  function Lookup(ms: seq<(string, Json)>, key: string): (r: Option<Json>)
    ensures r.Some? <==> exists i :: 0 <= i < |ms| && ms[i].0 == key
    ensures r.Some? ==> exists i :: 0 <= i < |ms| && ms[i] == (key, r.value)
  {
    if ms == [] then None
    else if ms[0].0 == key then Some(ms[0].1)
    else
      var r := Lookup(ms[1..], key);
      assert forall i :: 1 <= i < |ms| ==> ms[i] == ms[1..][i - 1];
      r
  }

  /** The member names of two member lists, one after the other. */
  lemma KeysOfAppend(ms: seq<(string, Json)>, extra: seq<(string, Json)>)
    ensures KeysOf(ms + extra) == KeysOf(ms) + KeysOf(extra)
  {
    var all, ks := KeysOf(ms + extra), KeysOf(ms) + KeysOf(extra);
    assert |all| == |ks|;
    forall i | 0 <= i < |all| ensures all[i] == ks[i] {
      if i < |ms| {
        assert (ms + extra)[i] == ms[i];
      } else {
        assert (ms + extra)[i] == extra[i - |ms|];
      }
    }
  }

  /** Member access on an object of two members with distinct names. */
  lemma GetOfTwo(k1: string, v1: Json, k2: string, v2: Json)
    requires k1 != k2
    ensures Get(JObj([(k1, v1), (k2, v2)]), k1) == Some(v1)
    ensures Get(JObj([(k1, v1), (k2, v2)]), k2) == Some(v2)
    ensures Keys(JObj([(k1, v1), (k2, v2)])) == [k1, k2]
  {
    var ms := [(k1, v1), (k2, v2)];
    assert ms[1..] == [(k2, v2)];
    assert Lookup(ms, k2) == Lookup([(k2, v2)], k2) == Some(v2);
  }

  /** Member access on an object of three members with distinct names. */
  lemma GetOfThree(k1: string, v1: Json, k2: string, v2: Json, k3: string, v3: Json)
    requires k1 != k2 && k1 != k3 && k2 != k3
    ensures Get(JObj([(k1, v1), (k2, v2), (k3, v3)]), k1) == Some(v1)
    ensures Get(JObj([(k1, v1), (k2, v2), (k3, v3)]), k2) == Some(v2)
    ensures Get(JObj([(k1, v1), (k2, v2), (k3, v3)]), k3) == Some(v3)
    ensures Keys(JObj([(k1, v1), (k2, v2), (k3, v3)])) == [k1, k2, k3]
  {
    var ms, tail := [(k1, v1), (k2, v2), (k3, v3)], [(k2, v2), (k3, v3)];
    assert ms[1..] == tail && tail[1..] == [(k3, v3)];
    assert Lookup(ms, k2) == Lookup(tail, k2) == Some(v2);
    assert Lookup(tail, k3) == Lookup([(k3, v3)], k3) == Some(v3);
    assert Lookup(ms, k3) == Lookup(tail, k3);
  }

  /** Member access on an object of four members with distinct names. */
  lemma GetOfFour(k1: string, v1: Json, k2: string, v2: Json, k3: string, v3: Json, k4: string, v4: Json)
    requires k1 != k2 && k1 != k3 && k1 != k4 && k2 != k3 && k2 != k4 && k3 != k4
    ensures Get(JObj([(k1, v1), (k2, v2), (k3, v3), (k4, v4)]), k1) == Some(v1)
    ensures Get(JObj([(k1, v1), (k2, v2), (k3, v3), (k4, v4)]), k2) == Some(v2)
    ensures Get(JObj([(k1, v1), (k2, v2), (k3, v3), (k4, v4)]), k3) == Some(v3)
    ensures Get(JObj([(k1, v1), (k2, v2), (k3, v3), (k4, v4)]), k4) == Some(v4)
  {
    var ms, tail := [(k1, v1), (k2, v2), (k3, v3), (k4, v4)], [(k2, v2), (k3, v3), (k4, v4)];
    assert ms[1..] == tail;
    GetOfThree(k2, v2, k3, v3, k4, v4);
    assert Lookup(ms, k2) == Lookup(tail, k2);
    assert Lookup(ms, k3) == Lookup(tail, k3);
    assert Lookup(ms, k4) == Lookup(tail, k4);
  }

  /** The member names of an object of four members. */
  lemma KeysOfFour(k1: string, v1: Json, k2: string, v2: Json, k3: string, v3: Json, k4: string, v4: Json)
    ensures Keys(JObj([(k1, v1), (k2, v2), (k3, v3), (k4, v4)])) == [k1, k2, k3, k4]
  {
    var ks := Keys(JObj([(k1, v1), (k2, v2), (k3, v3), (k4, v4)]));
    assert |ks| == 4 && ks[0] == k1 && ks[1] == k2 && ks[2] == k3 && ks[3] == k4;
  }

  /** Members appended after the first member named `key` do not change `key`'s value. */
  lemma {:induction false} LookupAppend(ms: seq<(string, Json)>, extra: seq<(string, Json)>, key: string)
    requires Lookup(ms, key).Some?
    ensures Lookup(ms + extra, key) == Lookup(ms, key)
  {
    if ms[0].0 != key {
      assert (ms + extra)[1..] == ms[1..] + extra;
      LookupAppend(ms[1..], extra, key);
    }
  }

  /** A name absent from `ms` is looked up in the appended members. */
  lemma {:induction false} LookupSkip(ms: seq<(string, Json)>, extra: seq<(string, Json)>, key: string)
    requires Lookup(ms, key).None?
    ensures Lookup(ms + extra, key) == Lookup(extra, key)
  {
    if ms != [] {
      assert (ms + extra)[1..] == ms[1..] + extra;
      LookupSkip(ms[1..], extra, key);
    } else {
      assert ms + extra == extra;
    }
  }
}
