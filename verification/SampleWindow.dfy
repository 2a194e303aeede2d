/**
 The fixed-size statistics of an execution profile: a ring of the last samples with quantiles over it,
 and a histogram with fixed bounds.
 */
module SampleWindow {
  import opened Sequences

  const CAPACITY: nat := 32

  // ---------------------------------------------------------------- sorting and order statistics

  function Insert(x: nat, s: seq<nat>): seq<nat> {
    if s == [] || x <= s[0] then [x] + s else [s[0]] + Insert(x, s[1..])
  }

  function Sort(s: seq<nat>): seq<nat> {
    if s == [] then [] else Insert(s[0], Sort(s[1..]))
  }

  function CountBelow(s: seq<nat>, v: nat): nat {
    if s == [] then 0 else (if s[0] < v then 1 else 0) + CountBelow(s[1..], v)
  }

  /**
   The value of rank `r` counted from zero: at most `r` samples are smaller and more than `r` are at most as
   large.
   */
  ghost predicate OrderStatistic(s: seq<nat>, r: nat, v: nat) {
    CountBelow(s, v) <= r < CountBelow(s, v + 1)
  }

  ghost predicate Ascending(s: seq<nat>) {
    forall i, j :: 0 <= i < j < |s| ==> s[i] <= s[j]
  }

  lemma {:induction false} CountConcat(a: seq<nat>, b: seq<nat>, v: nat)
    ensures CountBelow(a + b, v) == CountBelow(a, v) + CountBelow(b, v)
  {
    if a == [] {
      assert a + b == b;
    } else {
      assert (a + b)[1..] == a[1..] + b;
      CountConcat(a[1..], b, v);
    }
  }

  lemma {:induction false} CountGrows(s: seq<nat>, v: nat, w: nat)
    requires v <= w
    ensures CountBelow(s, v) <= CountBelow(s, w) <= |s|
  {
    if s != [] {
      CountGrows(s[1..], v, w);
    }
  }

  /** At most one value has a given rank. */
  lemma OrderStatisticUnique(s: seq<nat>, r: nat, v: nat, w: nat)
    requires OrderStatistic(s, r, v) && OrderStatistic(s, r, w)
    ensures v == w
  {
    if v < w {
      CountGrows(s, v + 1, w);
    } else if w < v {
      CountGrows(s, w + 1, v);
    }
  }

  lemma {:induction false} InsertMembers(x: nat, s: seq<nat>)
    ensures multiset(Insert(x, s)) == multiset{x} + multiset(s)
    ensures |Insert(x, s)| == |s| + 1
  {
    if s != [] && x > s[0] {
      InsertMembers(x, s[1..]);
      assert s == [s[0]] + s[1..];
    }
  }

  lemma {:induction false} InsertAscends(x: nat, s: seq<nat>)
    requires Ascending(s)
    ensures Ascending(Insert(x, s))
  {
    if s != [] && x > s[0] {
      InsertAscends(x, s[1..]);
      InsertMembers(x, s[1..]);
      var rest := Insert(x, s[1..]);
      forall j | 0 <= j < |rest| ensures s[0] <= rest[j] {
        assert rest[j] in multiset(rest);
      }
    }
  }

  lemma {:induction false} InsertCounts(x: nat, s: seq<nat>, v: nat)
    ensures CountBelow(Insert(x, s), v) == CountBelow([x], v) + CountBelow(s, v)
  {
    if s != [] && x > s[0] {
      InsertCounts(x, s[1..], v);
    } else {
      CountConcat([x], s, v);
    }
  }

  lemma {:induction false} SortSorts(s: seq<nat>, v: nat)
    ensures Ascending(Sort(s)) && |Sort(s)| == |s|
    ensures multiset(Sort(s)) == multiset(s)
    ensures CountBelow(Sort(s), v) == CountBelow(s, v)
  {
    if s != [] {
      SortSorts(s[1..], v);
      InsertMembers(s[0], Sort(s[1..]));
      InsertAscends(s[0], Sort(s[1..]));
      InsertCounts(s[0], Sort(s[1..]), v);
      assert s == [s[0]] + s[1..];
    }
  }

  lemma {:induction false} CountSorted(s: seq<nat>, r: nat)
    requires Ascending(s) && r < |s|
    ensures OrderStatistic(s, r, s[r])
  {
    if r == 0 {
      NoneBelow(s, s[0]);
    } else {
      CountSorted(s[1..], r - 1);
    }
  }

  lemma NoneBelow(s: seq<nat>, v: nat)
    requires forall i :: 0 <= i < |s| ==> v <= s[i]
    ensures CountBelow(s, v) == 0
  {
  }

  /** Sorting and indexing yields the order statistic of the unsorted samples. */
  lemma SortedAtIsOrderStatistic(s: seq<nat>, r: nat)
    requires r < |s|
    ensures |Sort(s)| == |s| && OrderStatistic(s, r, Sort(s)[r])
  {
    SortSorts(s, 0);
    var v := Sort(s)[r];
    CountSorted(Sort(s), r);
    SortSorts(s, v);
    SortSorts(s, v + 1);
  }

  // ---------------------------------------------------------------- quantiles

  /** `percentile` above one hundred counts as one hundred; the rank is rounded up. */
  function Rank(percentile: nat, len: nat): nat
    requires len > 0
  {
    (Min(percentile, 100) * (len - 1) + 99) / 100
  }

  lemma RankInRange(percentile: nat, len: nat)
    requires len > 0
    ensures Rank(percentile, len) < len
    ensures percentile >= 100 ==> Rank(percentile, len) == len - 1
    ensures percentile == 0 ==> Rank(percentile, len) == 0
  {
    RankBound(Min(percentile, 100), len - 1);
  }

  lemma RankBound(p: nat, n: nat)
    requires p <= 100
    ensures (p * n + 99) / 100 <= n
    ensures p == 100 ==> (p * n + 99) / 100 == n
  {
    ProductGrows(p, 100, n);
  }

  lemma ProductGrows(a: nat, b: nat, n: nat)
    requires a <= b
    ensures a * n <= b * n
  {
  }

  lemma CeilingGrows(x: nat, y: nat)
    requires x <= y
    ensures (x + 99) / 100 <= (y + 99) / 100
  {
  }

  lemma RankMonotone(p: nat, q: nat, len: nat)
    requires len > 0 && p <= q
    ensures Rank(p, len) <= Rank(q, len)
  {
    ProductGrows(Min(p, 100), Min(q, 100), len - 1);
    CeilingGrows(Min(p, 100) * (len - 1), Min(q, 100) * (len - 1));
  }

  function Quantile(samples: seq<nat>, percentile: nat): Option<nat> {
    if samples == [] then None
    else
      RankInRange(percentile, |samples|);
      SortSorts(samples, 0);
      Some(Sort(samples)[Rank(percentile, |samples|)])
  }

  /** The quantile is a sample of the right rank, and a larger percentile never gives a smaller value. */
  lemma QuantileIsOrderStatistic(samples: seq<nat>, p: nat, q: nat)
    requires samples != [] && p <= q
    ensures Quantile(samples, p).Some? && Quantile(samples, q).Some?
    ensures OrderStatistic(samples, Rank(p, |samples|), Quantile(samples, p).value)
    ensures Quantile(samples, p).value in samples
    ensures Quantile(samples, p).value <= Quantile(samples, q).value
  {
    RankInRange(p, |samples|);
    RankInRange(q, |samples|);
    RankMonotone(p, q, |samples|);
    SortSorts(samples, 0);
    SortedAtIsOrderStatistic(samples, Rank(p, |samples|));
    assert Sort(samples)[Rank(p, |samples|)] in multiset(Sort(samples));
  }

  lemma RankRoundsUp(percentile: nat, len: nat)
    requires len > 0
    ensures 100 * (Rank(percentile, len) - 1) < Min(percentile, 100) * (len - 1) <= 100 * Rank(percentile, len)
  {
  }

  /** Counting a sample out, the given percentage of the others is at or below it. */
  ghost predicate Covers(samples: seq<nat>, percentile: nat, v: nat) {
    100 * (CountBelow(samples, v + 1) - 1) >= Min(percentile, 100) * (|samples| - 1)
  }

  /** The quantile is the least sample with the given percentage of the other samples at or below it. */
  lemma QuantileIsLeastCovering(samples: seq<nat>, percentile: nat)
    requires samples != []
    ensures var v := Quantile(samples, percentile).value;
      && v in samples && Covers(samples, percentile, v)
      && forall w :: w in samples && Covers(samples, percentile, w) ==> v <= w
  {
    var v := Quantile(samples, percentile).value;
    QuantileIsOrderStatistic(samples, percentile, percentile);
    RankRoundsUp(percentile, |samples|);
    forall w | w in samples && Covers(samples, percentile, w) ensures v <= w {
      if w < v {
        CountGrows(samples, w + 1, v);
      }
    }
  }

  /** A quantile depends on the samples and not on where the ring keeps them. */
  lemma {:induction false} QuantileOfRotation(a: seq<nat>, b: seq<nat>, percentile: nat)
    ensures Quantile(a + b, percentile) == Quantile(b + a, percentile)
  {
    if a + b != [] {
      assert |b + a| == |a + b|;
      var v, w := Quantile(a + b, percentile).value, Quantile(b + a, percentile).value;
      QuantileIsOrderStatistic(a + b, percentile, percentile);
      QuantileIsOrderStatistic(b + a, percentile, percentile);
      CountConcat(a, b, w);
      CountConcat(a, b, w + 1);
      CountConcat(b, a, w);
      CountConcat(b, a, w + 1);
      OrderStatisticUnique(a + b, Rank(percentile, |a + b|), v, w);
    }
  }

  // ---------------------------------------------------------------- the ring

  /** The ring's contents and cursor against the whole history of samples. */
  ghost predicate Holds(samples: seq<nat>, next: nat, len: nat, history: seq<nat>) {
    && |samples| == CAPACITY
    && len == Min(|history|, CAPACITY)
    && if len < CAPACITY then next == len && samples[..len] == history
       else next < CAPACITY && samples[next..] + samples[..next] == LastN(history, CAPACITY)
  }

  lemma RecordHolds(samples: seq<nat>, next: nat, len: nat, history: seq<nat>, x: nat)
    requires Holds(samples, next, len, history) && next < CAPACITY
    ensures Holds(samples[next := x], (next + 1) % CAPACITY, Min(len + 1, CAPACITY), history + [x])
  {
  }

  /** The occupied part of the ring holds exactly the last samples, so its quantiles are theirs. */
  lemma RingIsLastSamples(samples: seq<nat>, next: nat, len: nat, history: seq<nat>, percentile: nat)
    requires Holds(samples, next, len, history)
    ensures multiset(samples[..len]) == multiset(LastN(history, CAPACITY))
    ensures Quantile(samples[..len], percentile) == Quantile(LastN(history, CAPACITY), percentile)
  {
    if len == CAPACITY {
      var a, b := samples[next..], samples[..next];
      assert samples[..len] == samples == b + a;
      QuantileOfRotation(a, b, percentile);
    }
  }

  class FixedSampleWindow {
    const samples: array<nat>
    var next: nat
    var len: nat
    ghost var history: seq<nat>

    ghost predicate Valid()
      reads this, samples
    {
      samples.Length == CAPACITY && next < CAPACITY && Holds(samples[..], next, len, history)
    }

    constructor ()
      ensures Valid() && history == [] && fresh(samples)
    {
      samples := new nat[CAPACITY](_ => 0);
      next, len, history := 0, 0, [];
    }

    method Record(sample: nat)
      requires Valid()
      modifies this, samples
      ensures Valid() && history == old(history) + [sample]
    {
      RecordHolds(samples[..], next, len, history, sample);
      samples[next] := sample;
      next := (next + 1) % CAPACITY;
      len := Min(len + 1, CAPACITY);
      history := history + [sample];
    }

    method QuantileOf(percentile: nat) returns (value: Option<nat>)
      requires Valid()
      ensures value == Quantile(LastN(history, CAPACITY), percentile)
      ensures value == None <==> history == []
    {
      RingIsLastSamples(samples[..], next, len, history, percentile);
      if len == 0 {
        return None;
      }
      var sorted := Sort(samples[..len]);
      RankInRange(percentile, len);
      SortSorts(samples[..len], 0);
      return Some(sorted[Rank(percentile, len)]);
    }
  }

  // ---------------------------------------------------------------- the histogram

  const BUCKETS: nat := 16

  const BOUNDS: seq<nat> := [1, 2, 4, 8, 16, 32, 64, 128, 256, 512, 1000, 2000, 4000, 8000, 16000, 32000]

  /** How many samples of a history are above `low` (if any) and at most `high` (if any). */
  function CountBetween(history: seq<nat>, low: Option<nat>, high: Option<nat>): nat {
    if history == [] then 0
    else
      var x := history[|history| - 1];
      CountBetween(history[..|history| - 1], low, high)
      + if (low.Some? ==> x > low.value) && (high.Some? ==> x <= high.value) then 1 else 0
  }

  function Low(i: nat): Option<nat>
    requires i <= BUCKETS
  {
    if i == 0 then None else Some(BOUNDS[i - 1])
  }

  function High(i: nat): Option<nat>
    requires i <= BUCKETS
  {
    if i == BUCKETS then None else Some(BOUNDS[i])
  }

  /** Each bucket counts the samples between its bounds and the buckets add up to the total. */
  ghost predicate Tallies(counts: seq<nat>, total: nat, history: seq<nat>) {
    && |counts| == BUCKETS + 1
    && (forall i :: 0 <= i <= BUCKETS ==> counts[i] == CountBetween(history, Low(i), High(i)))
    && Sum(counts, (c: nat) => c) == total == |history|
  }

  ghost predicate Inside(x: nat, i: nat)
    requires i <= BUCKETS
  {
    (i > 0 ==> x > BOUNDS[i - 1]) && (i < BUCKETS ==> x <= BOUNDS[i])
  }

  method BucketOf(sample: nat) returns (index: nat)
    ensures index <= BUCKETS && Inside(sample, index)
    ensures forall i :: 0 <= i <= BUCKETS && Inside(sample, i) ==> i == index
  {
    index := 0;
    while index < BUCKETS && sample > BOUNDS[index]
      invariant index <= BUCKETS
      invariant forall j :: 0 <= j < index ==> sample > BOUNDS[j]
    {
      index := index + 1;
    }
  }

  lemma TallyOne(counts: seq<nat>, total: nat, history: seq<nat>, x: nat, index: nat)
    requires Tallies(counts, total, history)
    requires index <= BUCKETS && Inside(x, index) && forall i :: 0 <= i <= BUCKETS && Inside(x, i) ==> i == index
    ensures Tallies(counts[index := counts[index] + 1], total + 1, history + [x])
  {
    assert (history + [x])[..|history|] == history;
    SumUpdate(counts, index, counts[index] + 1, (c: nat) => c);
    var after := counts[index := counts[index] + 1];
    forall i | 0 <= i <= BUCKETS ensures after[i] == CountBetween(history + [x], Low(i), High(i)) {
      assert Inside(x, i) <==> i == index;
    }
  }

  class FixedHistogram {
    const counts: array<nat>
    var total: nat
    ghost var history: seq<nat>

    ghost predicate Valid()
      reads this, counts
    {
      Tallies(counts[..], total, history)
    }

    constructor ()
      ensures Valid() && history == [] && fresh(counts)
    {
      counts := new nat[BUCKETS + 1](_ => 0);
      total, history := 0, [];
      new;
      SumZero(counts[..], (c: nat) => c);
    }

    method Record(sample: nat)
      requires Valid()
      modifies this, counts
      ensures Valid() && history == old(history) + [sample]
    {
      var index := BucketOf(sample);
      TallyOne(counts[..], total, history, sample, index);
      counts[index] := counts[index] + 1;
      total := total + 1;
      history := history + [sample];
    }
  }
}
