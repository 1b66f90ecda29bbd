/**
 * The structured form of what the JSON encoder receives: scalars and
 * objects whose members keep the insertion order of a Python dict.
 */
module JsonValues {
  import opened Wrappers
  import opened Records

  datatype Json = JNull | JInt(i: int) | JStr(s: string) | JObject(members: seq<(string, Json)>)

  /** A record value as the encoder writes it. */
  function FromValue(v: Value): Json {
    match v
    case Str(s) => JStr(s)
    case Int(i) => JInt(i)
    case Null => JNull
  }

  /** The keys of a dict, in insertion order. */
  function Keys(d: seq<(string, Json)>): (ks: seq<string>)
    ensures |ks| == |d|
    ensures forall i :: 0 <= i < |d| ==> ks[i] == d[i].0
  {
    if d == [] then [] else [d[0].0] + Keys(d[1..])
  }

  /** A key that is not among `ks` and differs from `k` is not among `ks + [k]`. */
  lemma NotInAppend(x: string, ks: seq<string>, k: string)
    requires x !in ks && x != k
    ensures x !in ks + [k]
  {
  }

  /** Appending two keys one at a time appends the pair. */
  lemma AppendTwo(ks: seq<string>, a: string, b: string)
    ensures (ks + [a]) + [b] == ks + [a, b]
  {
  }

  /** No key occurs twice, as in every dict. */
  predicate DistinctKeys(d: seq<(string, Json)>) {
    forall i, j :: 0 <= i < j < |d| ==> d[i].0 != d[j].0
  }

  /** `d[k]`, or None when `k` is not a key. */
  function Lookup(d: seq<(string, Json)>, k: string): (r: Option<Json>)
    ensures r.None? <==> k !in Keys(d)
    ensures r.Some? ==> exists i :: 0 <= i < |d| && d[i] == (k, r.value)
  {
    if d == [] then None
    else if d[0].0 == k then Some(d[0].1)
    else
      var r := Lookup(d[1..], k);
      assert Keys(d) == [d[0].0] + Keys(d[1..]);
      if r.Some? then
        ghost var i :| 0 <= i < |d[1..]| && d[1..][i] == (k, r.value);
        assert d[i + 1] == (k, r.value);
        r
      else
        r
  }

  /**
   * The dict assignment `d[k] = v`: an existing key keeps its position and
   * takes the new value, a new key is appended.
   */
  function Put(d: seq<(string, Json)>, k: string, v: Json): (r: seq<(string, Json)>)
    ensures Keys(r) == if k in Keys(d) then Keys(d) else Keys(d) + [k]
  {
    if d == [] then [(k, v)]
    else if d[0].0 == k then [(k, v)] + d[1..]
    else
      var rest := Put(d[1..], k, v);
      assert Keys(d) == [d[0].0] + Keys(d[1..]);
      assert Keys([d[0]] + rest) == [d[0].0] + Keys(rest);
      [d[0]] + rest
  }

  /** After `d[k] = v`, `d[k]` is `v`. */
  lemma {:induction false} PutThenLookup(d: seq<(string, Json)>, k: string, v: Json)
    ensures Lookup(Put(d, k, v), k) == Some(v)
  {
    if d != [] && d[0].0 != k {
      PutThenLookup(d[1..], k, v);
      assert Put(d, k, v)[1..] == Put(d[1..], k, v);
    }
  }

  /** `d[k] = v` leaves every other key's value as it was. */
  lemma {:induction false} PutLeavesOthers(d: seq<(string, Json)>, k: string, v: Json, other: string)
    requires other != k
    ensures Lookup(Put(d, k, v), other) == Lookup(d, other)
  {
    if d != [] && d[0].0 != k && d[0].0 != other {
      PutLeavesOthers(d[1..], k, v, other);
      assert Put(d, k, v)[1..] == Put(d[1..], k, v);
    } else if d != [] && d[0].0 == k {
      assert Put(d, k, v)[1..] == d[1..];
    }
  }

  /** Assignment keeps the keys distinct. */
  lemma PutKeepsKeysDistinct(d: seq<(string, Json)>, k: string, v: Json)
    requires DistinctKeys(d)
    ensures DistinctKeys(Put(d, k, v))
  {
    var r := Put(d, k, v);
    forall i, j | 0 <= i < j < |r| ensures r[i].0 != r[j].0 {
      assert Keys(r)[i] == r[i].0 && Keys(r)[j] == r[j].0;
      assert Keys(d)[i] == d[i].0;
      if j < |d| {
        assert Keys(d)[j] == d[j].0;
      }
    }
  }

  /** In a dict with distinct keys, looking up the i-th key gives the i-th value. */
  lemma {:induction false} LookupAt(d: seq<(string, Json)>, i: nat)
    requires DistinctKeys(d) && i < |d|
    ensures Lookup(d, d[i].0) == Some(d[i].1)
  {
    if i > 0 {
      assert d[0].0 != d[i].0;
      assert d[1..][i - 1] == d[i];
      LookupAt(d[1..], i - 1);
    }
  }
}
