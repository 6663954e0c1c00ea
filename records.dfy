/// Parsed log records.  A record is a Python `dict` from field name to field
/// value; its keys keep their insertion order, which the CSV export relies on.
/// A value is `None` when the capture group it comes from did not take part
/// in the match.
module Records {

  datatype Option<T> = None | Some(value: T)

  type Value = Option<string>

  datatype Field = Field(name: string, value: Value)

  type Record = seq<Field>

  function Keys(r: Record): (ks: seq<string>)
    ensures |ks| == |r|
    ensures forall i :: 0 <= i < |r| ==> ks[i] == r[i].name
  {
    seq(|r|, i requires 0 <= i < |r| => r[i].name)
  }

  /** A dict never holds the same key twice. */
  predicate DistinctKeys(r: Record) {
    forall i, j :: 0 <= i < j < |r| ==> r[i].name != r[j].name
  }

  /** `item.get(key)`, with the outer `None` for a missing key. */
  function Lookup(r: Record, key: string): (v: Option<Value>)
    ensures v.None? <==> key !in Keys(r)
    ensures v.Some? ==> exists i :: 0 <= i < |r| && r[i] == Field(key, v.value)
  {
    if r == [] then None
    else if r[0].name == key then Some(r[0].value)
    else Lookup(r[1..], key)
  }

  /** In a dict with distinct keys, the value found for a key is the one
      stored at that key's position. */
  lemma {:induction false} LookupAt(r: Record, i: nat)
    requires DistinctKeys(r) && i < |r|
    ensures Lookup(r, r[i].name) == Some(r[i].value)
  {
    if i > 0 {
      assert r[0].name != r[i].name;
      LookupAt(r[1..], i - 1);
    }
  }
}
