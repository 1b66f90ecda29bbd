/**
 * Flat linter records: one JSON object per reported message, read as a
 * dictionary from key to scalar JSON value.
 */
module Records {
  import opened Wrappers

  /** The scalar JSON values a linter record carries (strings, integers, null). */
  datatype Value = Str(s: string) | Int(i: int) | Null

  /** One parsed JSON object of the linter's output. */
  type Record = map<string, Value>

  /**
   * The exceptions the constructors and accessors can raise.
   * MissingKey and UnknownPriority are both a KeyError in the source,
   * NotAString is the AttributeError of calling a string method on a non-string.
   */
  datatype Fault = MissingKey(key: string) | UnknownPriority(name: Value) | NotAString(field: string)

  /** `data[key]`: the stored value, or a KeyError naming the key. */
  function Get(data: Record, key: string): Result<Value, Fault> {
    if key in data then Success(data[key]) else Failure(MissingKey(key))
  }

  /**
   * The first key of `keys`, in reading order, that `data` lacks; None when
   * every key is present.
   */
  function FirstMissing(keys: seq<string>, data: Record): (r: Option<string>)
    ensures r.None? <==> forall i :: 0 <= i < |keys| ==> keys[i] in data
    ensures r.Some? ==> exists i :: 0 <= i < |keys| && keys[i] == r.value && r.value !in data &&
                                    forall j :: 0 <= j < i ==> keys[j] in data
  {
    if keys == [] then None
    else if keys[0] !in data then Some(keys[0])
    else
      var rest := FirstMissing(keys[1..], data);
      if rest.Some? then
        ghost var i :| 0 <= i < |keys[1..]| && keys[1..][i] == rest.value && rest.value !in data &&
                       forall j :: 0 <= j < i ==> keys[1..][j] in data;
        assert keys[i + 1] == rest.value;
        rest
      else
        assert forall i :: 0 <= i < |keys| - 1 ==> keys[1..][i] == keys[i + 1];
        rest
  }

  /** One step of FirstMissing: the head key is checked before the rest. */
  lemma FirstMissingCons(k: string, ks: seq<string>, data: Record)
    ensures FirstMissing([k] + ks, data) == if k !in data then Some(k) else FirstMissing(ks, data)
  {
    assert ([k] + ks)[1..] == ks;
  }

  /** Keys are checked left to right: the second list matters only if the first is complete. */
  lemma {:induction false} FirstMissingAppend(ks: seq<string>, ls: seq<string>, data: Record)
    ensures FirstMissing(ks + ls, data) == if FirstMissing(ks, data).Some? then FirstMissing(ks, data) else FirstMissing(ls, data)
  {
    if ks != [] {
      FirstMissingAppend(ks[1..], ls, data);
      FirstMissingCons(ks[0], ks[1..] + ls, data);
      FirstMissingCons(ks[0], ks[1..], data);
      assert ks + ls == [ks[0]] + (ks[1..] + ls);
      assert ks == [ks[0]] + ks[1..];
    } else {
      assert ks + ls == ls;
    }
  }
}
