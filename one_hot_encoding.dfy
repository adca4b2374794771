/** `data_encoding::one_hot_encode`: a table from each distinct value to an index
    in `0..K`, and for every input value a length-K vector of bytes with a single
    1 at that value's index. */
module OneHotEncoding {
  import opened Records
  import opened Enumeration

  /** `v` has exactly one entry equal to 1, at `idx`, and every other entry is 0. */
  ghost predicate IsOneHotAt(v: seq<u8>, idx: nat) {
    idx < |v| && v[idx] == 1 && forall j :: 0 <= j < |v| && j != idx ==> v[j] == 0
  }

  /** The position of the first entry equal to 1, or `|v|` when there is none. */
  function IndexOfOne(v: seq<u8>): (p: nat)
    ensures p <= |v|
    ensures p < |v| ==> v[p] == 1
    ensures forall j :: 0 <= j < p ==> v[j] != 1
  {
    if |v| == 0 then 0
    else if v[0] == 1 then 0
    else 1 + IndexOfOne(v[1..])
  }

  /** Reading a one-hot vector back: the value listed at the position of its 1. */
  function Decode<T>(v: seq<u8>, unique: seq<T>): Option<T> {
    var p := IndexOfOne(v);
    if p < |unique| then Some(unique[p]) else None
  }

  /** A one-hot vector decodes to the value whose index it marks. */
  lemma DecodeOneHot<T>(v: seq<u8>, idx: nat, unique: seq<T>)
    requires IsOneHotAt(v, idx) && idx < |unique|
    ensures IndexOfOne(v) == idx
    ensures Decode(v, unique) == Some(unique[idx])
  {
  }

  /** One vector of the outer `map`: `vec![0u8; k]`, then `vector[idx] = 1` when
      the value has an index. The write would panic on an index of `k` or more,
      which the precondition excludes. */
  method OneHotVector(k: nat, table: map<string, nat>, value: string) returns (v: seq<u8>)
    requires forall x :: x in table ==> table[x] < k
    ensures |v| == k
    ensures value in table ==> IsOneHotAt(v, table[value])
    ensures value !in table ==> forall j :: 0 <= j < k ==> v[j] == 0
  {
    var vector := new u8[k](_ => 0);
    if value in table {
      var idx := table[value];
      vector[idx] := 1;
    }
    v := vector[..];
  }

  /** `one_hot_encode(values)`, with `unique` the enumeration of the distinct
      values that collecting them into a hash set and back produces. */
  method OneHotEncode(values: seq<string>, unique: seq<string>) returns (encoded: seq<seq<u8>>, table: map<string, nat>)
    requires IsEnumeration(unique, values)
    ensures |unique| == |Elements(values)|
    ensures table.Keys == Elements(values)
    ensures forall v :: v in table ==> table[v] < |unique| && unique[table[v]] == v
    ensures forall a, b :: a in table && b in table && a != b ==> table[a] != table[b]
    ensures forall k :: k in table.Values <==> 0 <= k < |unique|
    ensures |encoded| == |values|
    ensures forall i :: 0 <= i < |values| ==> |encoded[i]| == |unique|
    ensures forall i :: 0 <= i < |values| ==> values[i] in table && IsOneHotAt(encoded[i], table[values[i]])
    ensures forall i :: 0 <= i < |values| ==> Decode(encoded[i], unique) == Some(values[i])
    ensures values == [] ==> encoded == [] && table == map[]
  {
    EnumerationLength(unique, values);
    table := IndexTable(unique);
    IndexTableBijective(table, unique);
    encoded := [];
    for i := 0 to |values|
      invariant |encoded| == i
      invariant forall j :: 0 <= j < i ==> |encoded[j]| == |unique|
      invariant forall j :: 0 <= j < i ==> values[j] in table && IsOneHotAt(encoded[j], table[values[j]])
      invariant forall j :: 0 <= j < i ==> Decode(encoded[j], unique) == Some(values[j])
    {
      assert values[i] in Elements(values);
      var v := OneHotVector(|unique|, table, values[i]);
      DecodeOneHot(v, table[values[i]], unique);
      encoded := encoded + [v];
    }
  }
}
