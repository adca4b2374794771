/** `feature_enginnering::company_size_score`, the ordinal company-size score,
    and its inverse table. */
module FeatureDeriver {
  import opened Records

  /** The company size codes the score recognises. */
  predicate IsSizeCode(size: string) {
    size == "S" || size == "M" || size == "L"
  }

  /** `feature_enginnering::company_size_score`: a closed table S/M/L to 1/2/3,
      with 0 for every other string. */
  function CompanySizeScore(size: string): (score: u8)
    ensures score <= 3
    ensures score == 0 <==> !IsSizeCode(size)
  {
    match size
    case "S" => 1
    case "M" => 2
    case "L" => 3
    case _ => 0
  }

  /** The inverse table: the code a non-zero score stands for. */
  function SizeCode(score: u8): Option<string> {
    match score
    case 1 => Some("S")
    case 2 => Some("M")
    case 3 => Some("L")
    case _ => None
  }

  /** Small < medium < large. */
  lemma CompanySizeScoreOrdered()
    ensures 0 < CompanySizeScore("S") < CompanySizeScore("M") < CompanySizeScore("L")
    ensures CompanySizeScore("S") == 1 && CompanySizeScore("M") == 2 && CompanySizeScore("L") == 3
    ensures CompanySizeScore("X") == 0 && CompanySizeScore("s") == 0 && CompanySizeScore("") == 0
  {
  }

  /** A recognised code is recovered from its score, and a score that names a code
      is that code's score; so the score is injective on recognised codes. */
  lemma CompanySizeScoreRoundTrip(size: string, score: u8)
    ensures IsSizeCode(size) ==> SizeCode(CompanySizeScore(size)) == Some(size)
    ensures SizeCode(score) == Some(size) ==> CompanySizeScore(size) == score
    ensures SizeCode(score) == None <==> score == 0 || score > 3
  {
  }

  /** Two recognised codes with the same score are the same code. */
  lemma CompanySizeScoreInjective(a: string, b: string)
    requires IsSizeCode(a) && IsSizeCode(b)
    ensures CompanySizeScore(a) == CompanySizeScore(b) ==> a == b
  {
    CompanySizeScoreRoundTrip(a, CompanySizeScore(a));
    CompanySizeScoreRoundTrip(b, CompanySizeScore(b));
  }
}
