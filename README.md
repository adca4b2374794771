# Salary-record preparation pipeline, modelled in Dafny

This project models the in-memory preparation stages of `rust-data-preprocessing`,
which prepares job-salary records for machine learning. The stages are these:

- deduplication on the identity key `(work_year, job_title, company_location)`;
- the in-place lower-casing of `experience_level`;
- one-hot encoding of job titles (`data_encoding::one_hot_encode`);
- label encoding of experience levels;
- the remote-work indicator;
- the company-size score (`feature_enginnering::company_size_score`);
- the shuffled 80/20 train/test split.

The model works on a `Record` datatype that holds the columns these stages read.

Modules, one per stage:

- `Records` (records.dfy): the record, the identity key, `u8`, `Option`.
- `Deduplication` (deduplication.dfy): the `seen`-set loop and its specification `Dedup`.
- `Normalization` (normalization.dfy): the pass that rewrites `experience_level` in place in an array.
- `Enumeration` (enumeration.dfy): enumerations of distinct values, and the loop that fills the value-to-index map. `one_hot_encode` and the label mapping share this loop.
- `LabelEncoding` (label_encoding.dfy): the experience-level mapping and lookup.
- `OneHotEncoding` (one_hot_encoding.dfy): the per-value vectors and decoding them back.
- `FeatureDeriver` (feature_deriver.dfy): `company_size_score` and its inverse table.
- `Splitting` (splitting.dfy): the index vector, the train size, the cut, and record selection.
- `Pipeline` (pipeline.dfy): `main`'s stages chained together, with the per-record remote indicator and size scores that `main` derives.

These are modelled as parameters:

- `to_lowercase` is a parameter `lower: string -> string`. Nothing is assumed about it.
- The shuffled index vector is a parameter `shuffled`. Its contract is `multiset(shuffled) == multiset(0..n)`, which is exactly what an in-place shuffle keeps.
- A hash set collected into a vector can come out in any order. Each encoder therefore takes `unique`, any duplicate-free list of the distinct values (`IsEnumeration`), and its contract holds whichever list it gets. `Pipeline.Prepare` passes the first-occurrence order (`Distinct`).
- `train_size = (0.8 * n as f64) as usize` is `n * 8 / 10`. `TrainSize` proves this equals `floor(0.8 * n)` over the reals. The double closest to 0.8 is slightly above 0.8, and for every n below 2^50 the rounded f64 product still truncates to that value. Larger n are under "## Left out".

Three points where the model follows the code rather than a tidier design:

- The encoders do not fail on empty input. `one_hot_encode(&[])` returns no vectors and an empty map, and `OneHotEncode` says so.
- Index order comes from hash-set iteration, not from sorting. The model therefore proves every property for every enumeration.
- The code deduplicates before it lower-cases. `Normalization.NormalizeCommutesWithDedup` proves the result is the same either way, because the identity key does not contain `experience_level`.

## Model

| member | source | states |
|---|---|---|
| Deduplication.Deduplicate | src/main.rs:50-61 | the loop over `seen` returns `Dedup(dataset)`; no two output records share a key; output keys are exactly the input keys; output is no longer than input |
| Deduplication.DedupUniqueKeys | src/main.rs:50-61 | no two records of `Dedup(s)` share an identity key |
| Deduplication.DedupKeepsKeys | src/main.rs:53-59 | every key of the input appears in the output and no other does; `|Dedup(s)| <= |s|` |
| Deduplication.FirstOccurrences | src/main.rs:52-60 | the positions it lists are strictly increasing, each holds the first record with its key, and every such position is listed |
| Deduplication.DedupSelectsFirstOccurrences | src/main.rs:52-60 | `Dedup(s)` is the subsequence of `s` at the first-occurrence positions, so relative order is kept and each kept record is the first with its key |
| Deduplication.DedupOfDistinctKeys | src/main.rs:50-61 | a sequence whose keys are already distinct is returned unchanged |
| Deduplication.DedupIdempotent | src/main.rs:50-61 | `Dedup(Dedup(s)) == Dedup(s)` |
| Deduplication.DedupExample | src/main.rs:50-61 | of two 2021 "A"/"US" records and one 2022 "B"/"US" record, the first "A" (salary 100) and the "B" remain |
| Normalization.Normalized | src/main.rs:68-70 | same length; each record's experience level becomes `lower` of the old one; all six other fields are unchanged |
| Normalization.NormalizeExperienceLevels | src/main.rs:68-70 | the in-place loop leaves the array equal to `Normalized` of its old contents |
| Normalization.NormalizedKeepsKeys | src/main.rs:68-70 | lower-casing keeps the set of identity keys |
| Normalization.NormalizeCommutesWithDedup | src/main.rs:50-70 | dedup then normalise equals normalise then dedup |
| Enumeration.Distinct | src/encoding/mod.rs:6-11 | the first-occurrence list of distinct values has no repeats and holds exactly the input's values |
| Enumeration.EnumerationLength | src/main.rs:102-107 | any duplicate-free enumeration of the distinct values has length K, the number of distinct values |
| Enumeration.IndexTable | src/encoding/mod.rs:12-14 | the map has exactly the enumerated values as keys; the value at position i gets index i; every index is below K and maps back to its value |
| Enumeration.IndexTableBijective | src/main.rs:108-110 | distinct values get distinct indices, and the indices used are exactly `0..K` |
| LabelEncoding.EncodeLabels | src/main.rs:111-114 | one code per level, and code i is `mapping[levels[i]]` (the lookup's precondition is that every level is a key) |
| LabelEncoding.LabelEncode | src/main.rs:98-114 | the map's keys are the distinct levels; its indices are a bijection onto `0..K`; every lookup succeeds; code i is below K and decodes back to level i; two codes are equal iff their levels are |
| OneHotEncoding.IndexOfOne | src/encoding/mod.rs:18-20 | gives the first position holding 1, or the length when no entry is 1 |
| OneHotEncoding.DecodeOneHot | src/encoding/mod.rs:12-21 | a vector with its single 1 at `idx` decodes to `unique[idx]` |
| OneHotEncoding.OneHotVector | src/encoding/mod.rs:17-23 | the vector has length K; if the value has an index, the vector is 1 there and 0 elsewhere; otherwise it is all 0 |
| OneHotEncoding.OneHotEncode | src/encoding/mod.rs:2-26 | table keys are the distinct values, with indices a bijection onto `0..K`; one vector per value, each of length K, one-hot at `table[values[i]]` (the `Some` branch is always taken); vector i decodes back to `values[i]`; empty input gives no vectors and an empty map |
| FeatureDeriver.CompanySizeScore | src/feature_engineering/mod.rs:2-9 | the score is at most 3, and it is 0 iff the code is not "S", "M" or "L" |
| FeatureDeriver.CompanySizeScoreOrdered | src/feature_engineering/mod.rs:3-7 | S=1 < M=2 < L=3, and "X", "s" and "" score 0 |
| FeatureDeriver.CompanySizeScoreRoundTrip | src/feature_engineering/mod.rs:3-8 | a recognised code is recovered from its score through the inverse table; a score the inverse table knows is that code's score; 0 and scores above 3 name no code |
| FeatureDeriver.CompanySizeScoreInjective | src/feature_engineering/mod.rs:4-6 | two recognised codes with the same score are the same code |
| Pipeline.CompanySizeScores | src/main.rs:130-133 | one score per record, equal to `company_size_score` of that record's size code, so at most 3, and 0 iff the code is unrecognised |
| Pipeline.RemoteIndicator | src/main.rs:121-124 | one flag per record, each 0 or 1, and 1 iff `remote_ratio == 100` |
| Pipeline.RemoteIndicatorExample | src/main.rs:121-124 | ratio 100 gives 1 and ratio 50 gives 0 |
| Splitting.Range | src/main.rs:140 | `0..n` has length n, and entry i is i |
| Splitting.RangeMultiplicity | src/main.rs:140 | in `0..n` each index below n occurs exactly once, and nothing else occurs |
| Splitting.ShuffleIsPermutation | src/main.rs:140-141 | the shuffled vector has length n, entries below n, no repeats, and contains every index below n |
| Splitting.TrainSize | src/main.rs:142 | `train_size <= n` and `train_size == floor(0.8 * n)` over the reals |
| Splitting.TrainSizeOfTen | src/main.rs:142 | ten records split 8 and 2 |
| Splitting.SplitIndices | src/main.rs:143-144 | the training half has `train_size` entries, and the two halves concatenated are the shuffled vector |
| Splitting.SplitPartitions | src/main.rs:140-144 | the halves are disjoint; their union is exactly `0..n`; `len(train) == floor(0.8*n)`; the lengths sum to n |
| Splitting.Select | src/main.rs:146-147 | one record per index, namely `data[idxs[k]]`, when every index is in bounds |
| Splitting.SelectPermutation | src/main.rs:146-147 | selecting by two permutations of the same indices yields the same multiset of records |
| Splitting.SplitCoversDataset | src/main.rs:146-147 | every index used is in bounds; `len(train_data) + len(test_data) == len(unique_dataset)`; together the two halves are the dataset as a multiset |
| Pipeline.Clean | src/main.rs:49-70 | cleaned records are `Normalized(Dedup(dataset))`, which equals `Dedup(Normalized(dataset))`, with distinct keys and the input's key set |
| Pipeline.EncodeJobTitles | src/main.rs:90-91 | the table's keys are the distinct titles, distinct titles get distinct indices, and the indices are exactly `0..K`; one job-title vector per record, of length K, one-hot at the title's index |
| Pipeline.EncodeLevels | src/main.rs:98-114 | one level code per record; every lookup succeeds; each code is below the number of distinct levels; codes are equal iff levels are |
| Pipeline.SplitRecords | src/main.rs:140-147 | the index halves partition `0..n` at `floor(0.8*n)`; each record half is the records at its index half (`unique[i]` for each index `i`), so there are `floor(0.8*n)` training records; together the record halves are the cleaned dataset as a multiset |
| Pipeline.Prepare | src/main.rs:19-151 | the cleaned records are the deduplicated, lower-cased dataset with distinct keys and the input's key set; the job-title artefacts satisfy `JobTitlesEncoded` and the level artefacts `LevelsEncoded`; one remote flag (1 iff ratio 100) and one `company_size_score` per record; the split satisfies `SplitDone` |
| Pipeline.NormalizedKeepsFeatures | src/main.rs:121-133 | lower-casing changes neither the remote indicator, nor the size scores, nor the job titles |

## Left out

- Fetching the CSV over the network (`fetch_dataset`) and parsing it (`load_csv_data`): these are I/O, and their modules are not part of this model. The record sequence is an input instead. The `Record` struct's definition is not part of this model either. Its fields are inferred from their uses in `src/main.rs`. Integer widths are unbounded here, since the code only compares and copies these fields.
- The average salary, `calculate_mean`, `calculate_std_dev` and the z-score standardisation (src/main.rs:37-40, 75-87): these are f64 numerics, and the `scaling_data` module is not part of this model. The salary is carried as an opaque `real`.
- The missing-salary count (src/main.rs:42-47): it only prints a number. It also counts every record, because it has no filter.
- All `println!` output, the count of unique job titles and the hash set of experience levels built only to print them (src/main.rs:28-35, 62-65, 71-73, 84-87, 92-95, 115-118, 125-128, 134-137, 148-149). These prints index `[..5]` and `[0]`, which panic on short datasets; that behaviour is not modelled.
- `rand::rng()` and the internals of `shuffle` (src/main.rs:23, 141): the shuffled vector is a parameter, constrained only to be a permutation of `0..n`. The in-place swapping itself is not modelled.
- Concrete hash-set iteration order, and Unicode `to_lowercase`: both are foreign library behaviour. Every property holds for any enumeration of distinct values and any `lower`.
- Splitting.TrainSize: is the exact `floor(0.8 * n)`, which the f64 computation `(0.8 * n as f64) as usize` matches for every n below 2^50. For some larger n the rounded product reaches the next integer: n = 2251799813685251 gives 1801439850948201, not 1801439850948200. A dataset that large cannot be held in memory, so this difference is not modelled.
- Pipeline.Prepare: uses the first-occurrence enumeration where the source iterates a hash set in an unspecified order. The per-stage lemmas and `OneHotEncode` and `LabelEncode` cover every other order.
- The `context` module (src/main.rs:11): it is not part of this model.
