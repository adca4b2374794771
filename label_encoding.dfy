/** Label encoding of the experience levels: each distinct level gets a dense
    index, and every record's level is replaced by the index of its level. */
module LabelEncoding {
  import opened Enumeration

  /** `experience_levels.iter().map(|level| mapping[level]).collect()`; the lookup
      `mapping[level]` panics on a missing key, hence the precondition. */
  function EncodeLabels(levels: seq<string>, table: map<string, nat>): (codes: seq<nat>)
    requires forall i :: 0 <= i < |levels| ==> levels[i] in table
    ensures |codes| == |levels|
    ensures forall i :: 0 <= i < |levels| ==> codes[i] == table[levels[i]]
  {
    seq(|levels|, i requires 0 <= i < |levels| => table[levels[i]])
  }

  /** The label encoding stage: the table is built from `unique`, an enumeration of
      the distinct levels, and then every level is looked up in it. */
  method LabelEncode(levels: seq<string>, unique: seq<string>) returns (table: map<string, nat>, codes: seq<nat>)
    requires IsEnumeration(unique, levels)
    ensures |unique| == |Elements(levels)|
    ensures table.Keys == Elements(levels)
    ensures forall v :: v in table ==> table[v] < |unique| && unique[table[v]] == v
    ensures forall a, b :: a in table && b in table && a != b ==> table[a] != table[b]
    ensures forall k :: k in table.Values <==> 0 <= k < |unique|
    ensures |codes| == |levels|
    ensures forall i :: 0 <= i < |levels| ==> levels[i] in table && codes[i] == table[levels[i]]
    ensures forall i :: 0 <= i < |levels| ==> codes[i] < |unique| && unique[codes[i]] == levels[i]
    ensures forall i, j :: 0 <= i < |levels| && 0 <= j < |levels| ==>
      (codes[i] == codes[j] <==> levels[i] == levels[j])
  {
    EnumerationLength(unique, levels);
    table := IndexTable(unique);
    IndexTableBijective(table, unique);
    assert forall i :: 0 <= i < |levels| ==> levels[i] in Elements(levels);
    codes := EncodeLabels(levels, table);
  }
}
