/** The in-place pass that rewrites every record's experience level to its
    lower-case form. Only that field changes. */
module Normalization {
  import opened Records
  import opened Deduplication

  /** The sequence `s` after the pass: the same records, with only the
      experience level of each rewritten by `lower`. */
  function Normalized(s: seq<Record>, lower: string -> string): (t: seq<Record>)
    ensures |t| == |s|
    ensures forall i :: 0 <= i < |s| ==>
      && t[i].experience_level == lower(s[i].experience_level)
      && t[i].work_year == s[i].work_year
      && t[i].job_title == s[i].job_title
      && t[i].company_size == s[i].company_size
      && t[i].company_location == s[i].company_location
      && t[i].remote_ratio == s[i].remote_ratio
      && t[i].salary_in_usd == s[i].salary_in_usd
  {
    seq(|s|, i requires 0 <= i < |s| => Lowered(s[i], lower))
  }

  /** The loop over `&mut unique_dataset`: each record's experience level is
      replaced by its lowered form, in place. */
  method NormalizeExperienceLevels(a: array<Record>, lower: string -> string)
    modifies a
    ensures a[..] == Normalized(old(a[..]), lower)
  {
    for i := 0 to a.Length
      invariant forall j :: 0 <= j < i ==> a[j] == Lowered(old(a[j]), lower)
      invariant forall j :: i <= j < a.Length ==> a[j] == old(a[j])
    {
      a[i] := Lowered(a[i], lower);
    }
  }

  /** The identity key does not involve the experience level, so the pass keeps
      every key. */
  lemma NormalizedKeepsKeys(s: seq<Record>, lower: string -> string)
    ensures Keys(Normalized(s, lower)) == Keys(s)
  {
  }

  /** Deduplicating and then normalising (the order of the pipeline) gives the
      same records as normalising and then deduplicating. */
  lemma {:induction false} NormalizeCommutesWithDedup(s: seq<Record>, lower: string -> string)
    ensures Dedup(Normalized(s, lower)) == Normalized(Dedup(s), lower)
    decreases |s|
  {
    if |s| > 0 {
      var init := s[..|s| - 1];
      var t := Normalized(s, lower);
      assert t[..|t| - 1] == Normalized(init, lower);
      NormalizeCommutesWithDedup(init, lower);
      NormalizedKeepsKeys(init, lower);
      assert KeyOf(t[|t| - 1]) == KeyOf(s[|s| - 1]);
      if KeyOf(s[|s| - 1]) !in Keys(init) {
        assert Normalized(Dedup(init) + [s[|s| - 1]], lower)
            == Normalized(Dedup(init), lower) + [t[|t| - 1]];
      }
    }
  }
}
