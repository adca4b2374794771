/** The train/test split: the index vector `0..n` is shuffled, cut after the
    first `train_size` entries, and each half selects its records. */
module Splitting {
  import opened Enumeration

  /** `(0..n).collect()`. */
  function Range(n: nat): (r: seq<nat>)
    ensures |r| == n
    ensures forall i :: 0 <= i < n ==> r[i] == i
  {
    seq(n, i => i)
  }

  /** `shuffled` is what shuffling the index vector `0..n` in place can leave
      behind: the same indices, each as often as before. */
  ghost predicate IsShuffleOf(shuffled: seq<nat>, n: nat) {
    multiset(shuffled) == multiset(Range(n))
  }

  /** `(0.8 * n as f64) as usize`, which is `floor(0.8 * n)`. */
  function TrainSize(n: nat): (m: nat)
    ensures m <= n
    ensures m as real <= 0.8 * n as real < m as real + 1.0
  {
    n * 8 / 10
  }

  datatype Split = Split(train: seq<nat>, test: seq<nat>)

  /** `&idxs[..train_size]` and `&idxs[train_size..]`. */
  function SplitIndices(shuffled: seq<nat>): (s: Split)
    ensures |s.train| == TrainSize(|shuffled|)
    ensures s.train + s.test == shuffled
  {
    var m := TrainSize(|shuffled|);
    Split(shuffled[..m], shuffled[m..])
  }

  /** `idxs.iter().map(|&i| &data[i]).collect()`; indexing panics out of bounds,
      hence the precondition. */
  function Select<T>(data: seq<T>, idxs: seq<nat>): (r: seq<T>)
    requires forall k :: 0 <= k < |idxs| ==> idxs[k] < |data|
    ensures |r| == |idxs|
    ensures forall k :: 0 <= k < |idxs| ==> r[k] == data[idxs[k]]
  {
    seq(|idxs|, k requires 0 <= k < |idxs| => data[idxs[k]])
  }

  /** Every index below `n` occurs once in `0..n`, and nothing else occurs. */
  lemma {:induction false} RangeMultiplicity(n: nat)
    ensures forall x: nat :: multiset(Range(n))[x] == if x < n then 1 else 0
  {
    if n > 0 {
      RangeMultiplicity(n - 1);
      var last: nat := n - 1;
      assert Range(n) == Range(last) + [last];
      assert multiset(Range(n)) == multiset(Range(last)) + multiset{last};
    } else {
      assert Range(n) == [];
    }
  }

  lemma CountRepeated<T>(s: seq<T>, i: nat, j: nat)
    requires i < j < |s|
    ensures s[i] == s[j] ==> multiset(s)[s[j]] >= 2
  {
    assert s == s[..j] + s[j..];
    assert s[..j][i] == s[i];
    assert s[j..][0] == s[j];
    assert multiset(s)[s[j]] == multiset(s[..j])[s[j]] + multiset(s[j..])[s[j]];
  }

  /** A shuffled index vector is a permutation of `0..n`: it has length `n`, every
      entry is below `n`, no entry repeats, and every index below `n` occurs. */
  lemma {:induction false} ShuffleIsPermutation(shuffled: seq<nat>, n: nat)
    requires IsShuffleOf(shuffled, n)
    ensures |shuffled| == n
    ensures forall k :: 0 <= k < |shuffled| ==> shuffled[k] < n
    ensures NoDuplicates(shuffled)
    ensures forall x: nat :: x < n ==> x in shuffled
  {
    RangeMultiplicity(n);
    assert |multiset(shuffled)| == |multiset(Range(n))|;
    forall k | 0 <= k < |shuffled| ensures shuffled[k] < n {
      assert shuffled[k] in multiset(shuffled);
    }
    forall i, j | 0 <= i < j < |shuffled| ensures shuffled[i] != shuffled[j] {
      CountRepeated(shuffled, i, j);
    }
    forall x: nat | x < n ensures x in shuffled {
      assert x in multiset(Range(n));
    }
  }

  /** The split partitions `0..n`: the halves share no index, together they hold
      every index below `n` and nothing else, and the training half has
      `floor(0.8 * n)` of the `n` entries. */
  lemma SplitPartitions(shuffled: seq<nat>, n: nat)
    requires IsShuffleOf(shuffled, n)
    ensures |SplitIndices(shuffled).train| == TrainSize(n)
    ensures |SplitIndices(shuffled).train| + |SplitIndices(shuffled).test| == n
    ensures Elements(SplitIndices(shuffled).train) !! Elements(SplitIndices(shuffled).test)
    ensures forall x: nat :: (x in SplitIndices(shuffled).train || x in SplitIndices(shuffled).test) <==> x < n
  {
    ShuffleIsPermutation(shuffled, n);
    var s := SplitIndices(shuffled);
    CutHalvesDisjoint(shuffled, |s.train|);
    forall x: nat ensures (x in s.train || x in s.test) <==> x in shuffled {
      CutHalvesCover(shuffled, |s.train|, x);
    }
  }

  /** Cutting a sequence without repeats leaves two halves with no common entry. */
  lemma CutHalvesDisjoint<T>(s: seq<T>, m: nat)
    requires NoDuplicates(s) && m <= |s|
    ensures Elements(s[..m]) !! Elements(s[m..])
  {
  }

  /** Every entry of a sequence lies in one of the halves of a cut, and only those do. */
  lemma CutHalvesCover<T>(s: seq<T>, m: nat, x: T)
    requires m <= |s|
    ensures (x in s[..m] || x in s[m..]) <==> x in s
  {
  }

  lemma SelectConcat<T>(data: seq<T>, a: seq<nat>, b: seq<nat>)
    requires forall k :: 0 <= k < |a| ==> a[k] < |data|
    requires forall k :: 0 <= k < |b| ==> b[k] < |data|
    ensures Select(data, a + b) == Select(data, a) + Select(data, b)
  {
  }

  /** Removing the entry at `j` removes one occurrence of it, and one occurrence
      of the record it selects. */
  lemma SelectRemove<T>(data: seq<T>, q: seq<nat>, j: nat)
    requires forall k :: 0 <= k < |q| ==> q[k] < |data|
    requires j < |q|
    ensures multiset(q[..j] + q[j + 1..]) + multiset{q[j]} == multiset(q)
    ensures multiset(Select(data, q[..j] + q[j + 1..])) + multiset{data[q[j]]} == multiset(Select(data, q))
  {
    assert q == q[..j] + [q[j]] + q[j + 1..];
    SelectConcat(data, q[..j], [q[j]]);
    SelectConcat(data, q[..j] + [q[j]], q[j + 1..]);
    SelectConcat(data, q[..j], q[j + 1..]);
  }

  /** Selecting by two index sequences that are permutations of each other picks
      the same records, each as often. */
  lemma {:induction false} SelectPermutation<T>(data: seq<T>, p: seq<nat>, q: seq<nat>)
    requires forall k :: 0 <= k < |p| ==> p[k] < |data|
    requires forall k :: 0 <= k < |q| ==> q[k] < |data|
    requires multiset(p) == multiset(q)
    ensures multiset(Select(data, p)) == multiset(Select(data, q))
    decreases |p|
  {
    assert |p| == |multiset(p)| == |multiset(q)| == |q|;
    if |p| > 0 {
      var i := |p| - 1;
      var x := p[i];
      assert x in multiset(q);
      var j :| 0 <= j < |q| && q[j] == x;
      SelectRemove(data, p, i);
      SelectRemove(data, q, j);
      var init, rest := p[..i] + p[i + 1..], q[..j] + q[j + 1..];
      forall y ensures multiset(init)[y] == multiset(rest)[y] {
        assert (multiset(init) + multiset{x})[y] == (multiset(rest) + multiset{x})[y];
      }
      assert multiset(init) == multiset(rest);
      SelectPermutation(data, init, rest);
    }
  }

  /** The training and testing records are in bounds, their counts add up to the
      dataset's, and together they are the dataset itself, each record as often
      as it occurs there. */
  lemma SplitCoversDataset<T>(data: seq<T>, shuffled: seq<nat>)
    requires IsShuffleOf(shuffled, |data|)
    ensures forall k :: 0 <= k < |SplitIndices(shuffled).train| ==> SplitIndices(shuffled).train[k] < |data|
    ensures forall k :: 0 <= k < |SplitIndices(shuffled).test| ==> SplitIndices(shuffled).test[k] < |data|
    ensures |Select(data, SplitIndices(shuffled).train)| + |Select(data, SplitIndices(shuffled).test)| == |data|
    ensures multiset(Select(data, SplitIndices(shuffled).train) + Select(data, SplitIndices(shuffled).test)) == multiset(data)
  {
    ShuffleIsPermutation(shuffled, |data|);
    var s := SplitIndices(shuffled);
    SelectConcat(data, s.train, s.test);
    SelectPermutation(data, shuffled, Range(|data|));
    assert Select(data, Range(|data|)) == data;
  }

  /** Ten records split eight to two. */
  lemma TrainSizeOfTen()
    ensures TrainSize(10) == 8 && 10 - TrainSize(10) == 2
  {
  }
}
