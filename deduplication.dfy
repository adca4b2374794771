/** Removal of records that share an identity key, keeping the first one seen. */
module Deduplication {
  import opened Records

  /** The identity keys of the records of `s`. */
  function Keys(s: seq<Record>): set<Key> {
    set i | 0 <= i < |s| :: KeyOf(s[i])
  }

  /** No two records of `s` share an identity key. */
  ghost predicate NoDuplicateKeys(s: seq<Record>) {
    forall i, j :: 0 <= i < j < |s| ==> KeyOf(s[i]) != KeyOf(s[j])
  }

  /** Position `i` holds the first record of `s` with its key. */
  ghost predicate IsFirstOccurrence(s: seq<Record>, i: int) {
    0 <= i < |s| && forall j :: 0 <= j < i ==> KeyOf(s[j]) != KeyOf(s[i])
  }

  /** What the deduplication loop has produced after reading `s`: the loop reads
      the records front to back and keeps one exactly when its key was not among
      the keys of the records before it. */
  function Dedup(s: seq<Record>): seq<Record>
    decreases |s|
  {
    if |s| == 0 then []
    else
      var init := s[..|s| - 1];
      if KeyOf(s[|s| - 1]) in Keys(init) then Dedup(init) else Dedup(init) + [s[|s| - 1]]
  }

  /** The positions of `s` that hold the first record with their key, in increasing order. */
  ghost function FirstOccurrences(s: seq<Record>): (idx: seq<nat>)
    ensures forall k :: 0 <= k < |idx| ==> IsFirstOccurrence(s, idx[k])
    ensures forall k, l :: 0 <= k < l < |idx| ==> idx[k] < idx[l]
    ensures forall i :: IsFirstOccurrence(s, i) ==> i in idx
    decreases |s|
  {
    if |s| == 0 then []
    else
      var init := s[..|s| - 1];
      FirstOccurrencesExtend(s);
      if KeyOf(s[|s| - 1]) in Keys(init) then FirstOccurrences(init)
      else FirstOccurrences(init) + [|s| - 1]
  }

  /** How first occurrences in `s` relate to those in `s` without its last record. */
  lemma FirstOccurrencesExtend(s: seq<Record>)
    requires |s| > 0
    ensures forall i :: 0 <= i < |s| - 1 ==> (IsFirstOccurrence(s, i) <==> IsFirstOccurrence(s[..|s| - 1], i))
    ensures IsFirstOccurrence(s, |s| - 1) <==> KeyOf(s[|s| - 1]) !in Keys(s[..|s| - 1])
  {
  }

  lemma KeysSnoc(s: seq<Record>, r: Record)
    ensures Keys(s + [r]) == Keys(s) + {KeyOf(r)}
  {
    var t := s + [r];
    forall k | k in Keys(t) ensures k in Keys(s) + {KeyOf(r)} {
      var i :| 0 <= i < |t| && KeyOf(t[i]) == k;
      if i < |s| { assert KeyOf(s[i]) == k; }
    }
    forall k | k in Keys(s) ensures k in Keys(t) {
      var i :| 0 <= i < |s| && KeyOf(s[i]) == k;
      assert KeyOf(t[i]) == k;
    }
    assert KeyOf(t[|s|]) == KeyOf(r);
  }

  /** The deduplication loop of the pipeline: a set of seen keys, and a record is
      pushed only when inserting its key into that set succeeds. */
  method Deduplicate(dataset: seq<Record>) returns (unique: seq<Record>)
    ensures unique == Dedup(dataset)
    ensures NoDuplicateKeys(unique)
    ensures Keys(unique) == Keys(dataset)
    ensures |unique| <= |dataset|
  {
    var seen: set<Key> := {};
    unique := [];
    for i := 0 to |dataset|
      invariant seen == Keys(dataset[..i])
      invariant unique == Dedup(dataset[..i])
    {
      var record := dataset[i];
      var key := KeyOf(record);
      assert dataset[..i + 1] == dataset[..i] + [record];
      assert dataset[..i + 1][..i] == dataset[..i];
      KeysSnoc(dataset[..i], record);
      if key !in seen {
        seen := seen + {key};
        unique := unique + [record];
      }
    }
    assert dataset[..|dataset|] == dataset;
    DedupUniqueKeys(dataset);
    DedupKeepsKeys(dataset);
  }

  /** No two records of the deduplicated sequence share an identity key. */
  lemma {:induction false} DedupUniqueKeys(s: seq<Record>)
    ensures NoDuplicateKeys(Dedup(s))
    decreases |s|
  {
    if |s| > 0 {
      var init := s[..|s| - 1];
      var last := s[|s| - 1];
      DedupUniqueKeys(init);
      if KeyOf(last) !in Keys(init) {
        DedupKeepsKeys(init);
        var d := Dedup(init);
        var r := d + [last];
        forall i, j | 0 <= i < j < |r| ensures KeyOf(r[i]) != KeyOf(r[j]) {
          if j == |d| {
            assert KeyOf(d[i]) in Keys(d);
          }
        }
      }
    }
  }

  /** Deduplication loses no key and adds none, and never grows the sequence. */
  lemma {:induction false} DedupKeepsKeys(s: seq<Record>)
    ensures Keys(Dedup(s)) == Keys(s)
    ensures |Dedup(s)| <= |s|
    decreases |s|
  {
    if |s| > 0 {
      var init := s[..|s| - 1];
      var last := s[|s| - 1];
      assert s == init + [last];
      DedupKeepsKeys(init);
      KeysSnoc(init, last);
      if KeyOf(last) !in Keys(init) {
        KeysSnoc(Dedup(init), last);
      }
    }
  }

  /** The deduplicated sequence is the subsequence of `s` at the positions of first
      occurrences: relative order is kept, and the record kept for a key is the
      first input record with that key. */
  lemma {:induction false} DedupSelectsFirstOccurrences(s: seq<Record>)
    ensures |Dedup(s)| == |FirstOccurrences(s)|
    ensures forall k :: 0 <= k < |Dedup(s)| ==>
      FirstOccurrences(s)[k] < |s| && Dedup(s)[k] == s[FirstOccurrences(s)[k]]
    decreases |s|
  {
    if |s| > 0 {
      var init := s[..|s| - 1];
      DedupSelectsFirstOccurrences(init);
    }
  }

  /** A sequence whose keys are already distinct is left as it is. */
  lemma {:induction false} DedupOfDistinctKeys(s: seq<Record>)
    requires NoDuplicateKeys(s)
    ensures Dedup(s) == s
    decreases |s|
  {
    if |s| > 0 {
      var init := s[..|s| - 1];
      var last := s[|s| - 1];
      assert NoDuplicateKeys(init);
      DedupOfDistinctKeys(init);
      forall j | 0 <= j < |init| ensures KeyOf(init[j]) != KeyOf(last) {
        assert init[j] == s[j];
      }
      assert s == init + [last];
    }
  }

  /** Deduplicating twice is the same as deduplicating once. */
  lemma DedupIdempotent(s: seq<Record>)
    ensures Dedup(Dedup(s)) == Dedup(s)
  {
    DedupUniqueKeys(s);
    DedupOfDistinctKeys(Dedup(s));
  }

  /** Two records of 2021 with title "A" in "US" and one of 2022 with title "B":
      the second "A" is dropped and the first, with salary 100, is kept. */
  lemma DedupExample()
    ensures var a1 := Record(2021, "A", "SE", "M", "US", 0, 100.0);
            var a2 := Record(2021, "A", "SE", "M", "US", 0, 200.0);
            var b := Record(2022, "B", "SE", "M", "US", 0, 150.0);
            Dedup([a1, a2, b]) == [a1, b]
  {
    var a1 := Record(2021, "A", "SE", "M", "US", 0, 100.0);
    var a2 := Record(2021, "A", "SE", "M", "US", 0, 200.0);
    var b := Record(2022, "B", "SE", "M", "US", 0, 150.0);
    assert [a1, a2, b][..2] == [a1, a2] && [a1, a2][..1] == [a1] && [a1][..0] == [];
    assert Keys([]) == {};
    KeysSnoc([], a1);
    assert [] + [a1] == [a1];
    KeysSnoc([a1], a2);
    assert [a1] + [a2] == [a1, a2];
    assert Dedup([a1]) == [a1];
    assert Dedup([a1, a2]) == [a1];
  }
}
