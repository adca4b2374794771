/** The distinct values of a column, enumerated without repeats, and the table
    that gives each of them its position in that enumeration. Both
    `one_hot_encode` and the label mapping for experience levels build their
    table this way. */
module Enumeration {

  /** The values occurring in `s`. */
  function Elements<T>(s: seq<T>): set<T> {
    set x | x in s
  }

  predicate NoDuplicates<T(==)>(s: seq<T>) {
    forall i, j :: 0 <= i < j < |s| ==> s[i] != s[j]
  }

  /** `order` lists every value of `values` exactly once, in some order. Collecting
      a hash set into a vector yields such a list; which order it picks is not
      fixed, so everything below holds for any of them. */
  predicate IsEnumeration<T(==)>(order: seq<T>, values: seq<T>) {
    NoDuplicates(order) && Elements(order) == Elements(values)
  }

  /** One enumeration that always exists: the values in order of first occurrence. */
  function Distinct<T(==)>(s: seq<T>): (d: seq<T>)
    ensures IsEnumeration(d, s)
    decreases |s|
  {
    if |s| == 0 then []
    else
      var init := s[..|s| - 1];
      var d := Distinct(init);
      assert s == init + [s[|s| - 1]];
      assert Elements(s) == Elements(init) + {s[|s| - 1]};
      if s[|s| - 1] in d then d
      else
        assert Elements(d + [s[|s| - 1]]) == Elements(d) + {s[|s| - 1]};
        d + [s[|s| - 1]]
  }

  /** A list without repeats has as many entries as distinct values. */
  lemma {:induction false} DistinctCount<T>(s: seq<T>)
    requires NoDuplicates(s)
    ensures |Elements(s)| == |s|
    decreases |s|
  {
    if |s| > 0 {
      var init := s[..|s| - 1];
      assert NoDuplicates(init);
      DistinctCount(init);
      assert s == init + [s[|s| - 1]];
      assert Elements(s) == Elements(init) + {s[|s| - 1]};
      assert s[|s| - 1] !in Elements(init) by {
        forall j | 0 <= j < |init| ensures init[j] != s[|s| - 1] {
          assert init[j] == s[j];
        }
      }
    }
  }

  /** The number of distinct values of `values`: the length K of its one-hot
      vectors and the bound of its labels. */
  lemma EnumerationLength<T>(order: seq<T>, values: seq<T>)
    requires IsEnumeration(order, values)
    ensures |order| == |Elements(values)|
  {
    DistinctCount(order);
  }

  /** The loop `for (i, value) in unique_values.iter().enumerate() { map.insert(value, i) }`. */
  method IndexTable<T>(unique: seq<T>) returns (table: map<T, nat>)
    requires NoDuplicates(unique)
    ensures table.Keys == Elements(unique)
    ensures forall i :: 0 <= i < |unique| ==> table[unique[i]] == i
    ensures forall v :: v in table ==> table[v] < |unique| && unique[table[v]] == v
  {
    table := map[];
    for i := 0 to |unique|
      invariant table.Keys == Elements(unique[..i])
      invariant forall j :: 0 <= j < i ==> table[unique[j]] == j
    {
      assert unique[..i + 1] == unique[..i] + [unique[i]];
      assert Elements(unique[..i + 1]) == Elements(unique[..i]) + {unique[i]};
      table := table[unique[i] := i];
    }
    assert unique[..|unique|] == unique;
  }

  /** The table built from an enumeration is a bijection between the distinct
      values and the indices `0..K`. */
  lemma IndexTableBijective<T>(table: map<T, nat>, unique: seq<T>)
    requires forall i :: 0 <= i < |unique| ==> unique[i] in table && table[unique[i]] == i
    requires forall v :: v in table ==> table[v] < |unique| && unique[table[v]] == v
    ensures forall a, b :: a in table && b in table && table[a] == table[b] ==> a == b
    ensures forall k :: k in table.Values <==> 0 <= k < |unique|
  {
    forall k | k in table.Values ensures 0 <= k < |unique| {
      var v :| v in table && table[v] == k;
    }
    forall k | 0 <= k < |unique| ensures k in table.Values {
      assert table[unique[k]] == k;
    }
  }
}
