/** The preparation pipeline of `main`, from the loaded records to the split:
    deduplicate, lower-case the experience levels, one-hot encode the job
    titles, label encode the experience levels, derive the remote indicator and
    the company-size scores, and split into training and testing records. */
module Pipeline {
  import opened Records
  import opened Enumeration
  import opened Deduplication
  import opened Normalization
  import opened LabelEncoding
  import opened OneHotEncoding
  import opened FeatureDeriver
  import opened Splitting

  /** Everything the pipeline exposes to the code that trains a model. */
  datatype Artifacts = Artifacts(
    unique: seq<Record>,
    jobTitleVectors: seq<seq<u8>>,
    jobTitleTable: map<string, nat>,
    levelTable: map<string, nat>,
    levelCodes: seq<nat>,
    remote: seq<u8>,
    sizeScores: seq<u8>,
    trainIdxs: seq<nat>,
    testIdxs: seq<nat>,
    trainData: seq<Record>,
    testData: seq<Record>)

  function JobTitles(s: seq<Record>): (t: seq<string>)
    ensures |t| == |s| && forall i :: 0 <= i < |s| ==> t[i] == s[i].job_title
  {
    seq(|s|, i requires 0 <= i < |s| => s[i].job_title)
  }

  function ExperienceLevels(s: seq<Record>): (t: seq<string>)
    ensures |t| == |s| && forall i :: 0 <= i < |s| ==> t[i] == s[i].experience_level
  {
    seq(|s|, i requires 0 <= i < |s| => s[i].experience_level)
  }

  /** Deduplication followed by the normalisation pass, on an array as in the
      source. */
  method Clean(dataset: seq<Record>, lower: string -> string) returns (unique: seq<Record>)
    ensures unique == Normalized(Dedup(dataset), lower)
    ensures unique == Dedup(Normalized(dataset, lower))
    ensures NoDuplicateKeys(unique) && Keys(unique) == Keys(dataset)
  {
    var deduped := Deduplicate(dataset);
    var records := new Record[|deduped|](i requires 0 <= i < |deduped| => deduped[i]);
    assert records[..] == deduped;
    NormalizeExperienceLevels(records, lower);
    unique := records[..];
    NormalizeCommutesWithDedup(dataset, lower);
    NormalizedKeepsKeys(deduped, lower);
    assert forall i :: 0 <= i < |unique| ==> KeyOf(unique[i]) == KeyOf(deduped[i]);
  }

  /** `remote_work_indicator`: one byte per record, 1 exactly when the record is
      fully remote (a remote ratio of 100) and 0 otherwise. */
  function RemoteIndicator(records: seq<Record>): (flags: seq<u8>)
    ensures |flags| == |records|
    ensures forall i :: 0 <= i < |records| ==> flags[i] <= 1
    ensures forall i :: 0 <= i < |records| ==> (flags[i] == 1 <==> records[i].remote_ratio == 100)
  {
    seq(|records|, i requires 0 <= i < |records| => if records[i].remote_ratio == 100 then 1 else 0)
  }

  /** A fully remote record is flagged, a half remote one is not. */
  lemma RemoteIndicatorExample(r: Record)
    ensures RemoteIndicator([r.(remote_ratio := 100), r.(remote_ratio := 50)]) == [1, 0]
  {
  }

  /** `company_size_scores`: one score per record, the record's company-size
      score, which is at most 3 and 0 exactly for an unrecognised code. */
  function CompanySizeScores(records: seq<Record>): (scores: seq<u8>)
    ensures |scores| == |records|
    ensures forall i :: 0 <= i < |records| ==> scores[i] == CompanySizeScore(records[i].company_size)
    ensures forall i :: 0 <= i < |records| ==>
      scores[i] <= 3 && (scores[i] == 0 <==> !IsSizeCode(records[i].company_size))
  {
    seq(|records|, i requires 0 <= i < |records| => CompanySizeScore(records[i].company_size))
  }

  /** The table gives distinct titles distinct indices, and its indices are
      exactly `0..K` (K the number of distinct titles); one vector per record,
      each of length K, with its single 1 at the index of the record's title. */
  ghost predicate JobTitlesEncoded(unique: seq<Record>, vectors: seq<seq<u8>>, table: map<string, nat>) {
    && table.Keys == Elements(JobTitles(unique))
    && (forall a, b :: a in table && b in table && a != b ==> table[a] != table[b])
    && (forall k :: k in table.Values <==> 0 <= k < |Elements(JobTitles(unique))|)
    && |vectors| == |unique|
    && forall i :: 0 <= i < |unique| ==>
      && |vectors[i]| == |Elements(JobTitles(unique))|
      && unique[i].job_title in table
      && IsOneHotAt(vectors[i], table[unique[i].job_title])
  }

  method EncodeJobTitles(unique: seq<Record>) returns (vectors: seq<seq<u8>>, table: map<string, nat>)
    ensures JobTitlesEncoded(unique, vectors, table)
  {
    var titles := JobTitles(unique);
    vectors, table := OneHotEncode(titles, Distinct(titles));
  }

  /** One code per record, below K (the number of distinct levels), looked up in
      the table, and equal for two records exactly when their levels are. */
  ghost predicate LevelsEncoded(unique: seq<Record>, table: map<string, nat>, codes: seq<nat>) {
    && table.Keys == Elements(ExperienceLevels(unique))
    && |codes| == |unique|
    && (forall i :: 0 <= i < |unique| ==>
      && unique[i].experience_level in table
      && codes[i] == table[unique[i].experience_level]
      && codes[i] < |Elements(ExperienceLevels(unique))|)
    && forall i, j :: 0 <= i < |unique| && 0 <= j < |unique| ==>
      (codes[i] == codes[j] <==> unique[i].experience_level == unique[j].experience_level)
  }

  method EncodeLevels(unique: seq<Record>) returns (table: map<string, nat>, codes: seq<nat>)
    ensures LevelsEncoded(unique, table, codes)
  {
    var levels := ExperienceLevels(unique);
    table, codes := LabelEncode(levels, Distinct(levels));
  }

  /** The index halves partition `0..n` with `floor(0.8 * n)` training indices;
      each half selects the records at its indices, so there are
      `floor(0.8 * n)` training records, and the two halves of records together
      are the cleaned records. */
  ghost predicate SplitDone(unique: seq<Record>, shuffled: seq<nat>, train: seq<nat>, test: seq<nat>,
                            trainData: seq<Record>, testData: seq<Record>) {
    && train + test == shuffled
    && |train| == TrainSize(|unique|)
    && Elements(train) !! Elements(test)
    && (forall x: nat :: (x in train || x in test) <==> x < |unique|)
    && (forall k :: 0 <= k < |train| ==> train[k] < |unique|)
    && (forall k :: 0 <= k < |test| ==> test[k] < |unique|)
    && trainData == Select(unique, train)
    && testData == Select(unique, test)
    && |trainData| == TrainSize(|unique|)
    && |trainData| + |testData| == |unique|
    && multiset(trainData + testData) == multiset(unique)
  }

  method SplitRecords(unique: seq<Record>, shuffled: seq<nat>)
    returns (train: seq<nat>, test: seq<nat>, trainData: seq<Record>, testData: seq<Record>)
    requires IsShuffleOf(shuffled, |unique|)
    ensures SplitDone(unique, shuffled, train, test, trainData, testData)
  {
    var split := SplitIndices(shuffled);
    SplitPartitions(shuffled, |unique|);
    SplitCoversDataset(unique, shuffled);
    train, test := split.train, split.test;
    trainData := Select(unique, train);
    testData := Select(unique, test);
  }

  /** The pipeline, with `lower` standing for `to_lowercase` and `shuffled` for
      the index vector `0..n` after `shuffle`, where `n` is the number of records
      left after deduplication. The hash-set enumerations of distinct job titles
      and levels are taken in order of first occurrence. */
  method Prepare(dataset: seq<Record>, lower: string -> string, shuffled: seq<nat>) returns (out: Artifacts)
    requires IsShuffleOf(shuffled, |Dedup(dataset)|)
    ensures out.unique == Normalized(Dedup(dataset), lower)
    ensures out.unique == Dedup(Normalized(dataset, lower))
    ensures NoDuplicateKeys(out.unique) && Keys(out.unique) == Keys(dataset)
    ensures JobTitlesEncoded(out.unique, out.jobTitleVectors, out.jobTitleTable)
    ensures LevelsEncoded(out.unique, out.levelTable, out.levelCodes)
    ensures |out.remote| == |out.unique| && |out.sizeScores| == |out.unique|
    ensures forall i :: 0 <= i < |out.unique| ==>
      (out.remote[i] == 1 <==> out.unique[i].remote_ratio == 100) && out.remote[i] <= 1
    ensures forall i :: 0 <= i < |out.unique| ==>
      out.sizeScores[i] == CompanySizeScore(out.unique[i].company_size)
    ensures SplitDone(out.unique, shuffled, out.trainIdxs, out.testIdxs, out.trainData, out.testData)
  {
    var unique := Clean(dataset, lower);
    var vectors, titleTable := EncodeJobTitles(unique);
    var levelTable, codes := EncodeLevels(unique);
    var remote := RemoteIndicator(unique);
    var scores := CompanySizeScores(unique);
    var train, test, trainData, testData := SplitRecords(unique, shuffled);
    out := Artifacts(unique, vectors, titleTable, levelTable, codes, remote, scores,
                     train, test, trainData, testData);
  }

  /** Normalisation changes nothing the derived features or the split depend on. */
  lemma NormalizedKeepsFeatures(s: seq<Record>, lower: string -> string)
    ensures RemoteIndicator(Normalized(s, lower)) == RemoteIndicator(s)
    ensures CompanySizeScores(Normalized(s, lower)) == CompanySizeScores(s)
    ensures JobTitles(Normalized(s, lower)) == JobTitles(s)
  {
  }
}
