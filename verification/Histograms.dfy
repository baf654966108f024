/**
 The median a report reads back from a 1 ms histogram, against the samples that were put
 into it.
 */
module Histograms {
  import opened NetPhase

  const MS: nat := 1_000_000

  /** The histogram after recording `samples` in order. */
  function Recorded(samples: seq<nat>): Histogram {
    if samples == [] then seq(HB, _ => 0)
    else Hit(Recorded(samples[..|samples| - 1]), samples[|samples| - 1])
  }

  /** The sum of the first `k` buckets. */
  function Cumulative(h: seq<nat>, k: nat): nat
    requires k <= |h|
  {
    if k == 0 then 0 else Cumulative(h, k - 1) + h[k - 1]
  }

  /** How many samples fall into the buckets below `k`. */
  function Under(samples: seq<nat>, k: nat): nat {
    if samples == [] then 0
    else Under(samples[..|samples| - 1], k) + if Bucket(samples[|samples| - 1]) < k then 1 else 0
  }

  lemma {:induction false} CumulativeHit(h: Histogram, ns: nat, k: nat)
    requires k <= HB
    ensures Cumulative(Hit(h, ns), k) == Cumulative(h, k) + if Bucket(ns) < k then 1 else 0
  {
    if k > 0 {
      CumulativeHit(h, ns, k - 1);
    }
  }

  lemma {:induction false} CumulativeZero(k: nat)
    requires k <= HB
    ensures Cumulative(seq(HB, _ => 0), k) == 0
  {
    if k > 0 {
      CumulativeZero(k - 1);
    }
  }

  /** Cumulative bucket counts are exact counts of samples. */
  lemma {:induction false} CumulativeIsUnder(samples: seq<nat>, k: nat)
    requires k <= HB
    ensures Cumulative(Recorded(samples), k) == Under(samples, k)
  {
    if samples == [] {
      CumulativeZero(k);
    } else {
      CumulativeIsUnder(samples[..|samples| - 1], k);
      CumulativeHit(Recorded(samples[..|samples| - 1]), samples[|samples| - 1], k);
    }
  }

  lemma {:induction false} UnderAll(samples: seq<nat>)
    ensures Under(samples, HB) == |samples|
  {
    if samples != [] {
      UnderAll(samples[..|samples| - 1]);
    }
  }

  /** Every recorded sample is in exactly one bucket. */
  lemma RecordedTotal(samples: seq<nat>)
    ensures Cumulative(Recorded(samples), HB) == |samples|
  {
    CumulativeIsUnder(samples, HB);
    UnderAll(samples);
  }

  // ----- the report's median -----

  /** The first bucket at which twice the running sum reaches the total; -1 for no samples. */
  ghost predicate MedianBucket(h: seq<nat>, i: int) {
    var total := Cumulative(h, |h|);
    if total == 0 then i == -1
    else
      && 0 <= i < |h|
      && Cumulative(h, i + 1) * 2 >= total
      && forall k | 1 <= k <= i :: Cumulative(h, k) * 2 < total
  }

  /** The middle of that bucket in milliseconds, 0.0 for no samples. */
  ghost predicate IsP50(h: seq<nat>, ms: real) {
    exists i :: MedianBucket(h, i) && ms == if i < 0 then 0.0 else i as real + 0.5
  }

  method P50(h: seq<nat>) returns (ms: real)
    ensures IsP50(h, ms)
  {
    var total, acc := 0, 0;
    for i := 0 to |h|
      invariant total == Cumulative(h, i)
    {
      total := total + h[i];
    }
    for i := 0 to |h|
      invariant acc == Cumulative(h, i)
      invariant forall k | 1 <= k <= i :: total == 0 || Cumulative(h, k) * 2 < total
    {
      acc := acc + h[i];
      if total != 0 && acc * 2 >= total {
        assert MedianBucket(h, i);
        return i as real + 0.5;
      }
    }
    assert MedianBucket(h, -1);
    return 0.0;
  }

  // ----- the true median -----

  predicate Ascending(s: seq<nat>) {
    forall i, j :: 0 <= i <= j < |s| ==> s[i] <= s[j]
  }

  /** In ascending order the samples of the buckets below `k` come first. */
  lemma {:induction false} UnderAscending(s: seq<nat>, k: nat, m: nat)
    requires Ascending(s) && m < |s|
    ensures Under(s, k) > m <==> Bucket(s[m]) < k
  {
    var front, last := s[..|s| - 1], s[|s| - 1];
    if m == |s| - 1 {
      UnderAtMost(front, k);
      if Bucket(last) < k {
        AllUnder(front, k, last);
      }
    } else {
      UnderAscending(front, k, m);
      if Bucket(last) < k {
        assert Bucket(s[m]) <= Bucket(last);
      }
    }
  }

  lemma {:induction false} UnderAtMost(s: seq<nat>, k: nat)
    ensures Under(s, k) <= |s|
  {
    if s != [] {
      UnderAtMost(s[..|s| - 1], k);
    }
  }

  lemma {:induction false} AllUnder(s: seq<nat>, k: nat, bound: nat)
    requires Bucket(bound) < k && forall j :: 0 <= j < |s| ==> s[j] <= bound
    ensures Under(s, k) == |s|
  {
    if s != [] {
      AllUnder(s[..|s| - 1], k, bound);
      assert Bucket(s[|s| - 1]) <= Bucket(bound);
    }
  }

  lemma {:induction false} UnderConcat(a: seq<nat>, b: seq<nat>, k: nat)
    ensures Under(a + b, k) == Under(a, k) + Under(b, k)
  {
    if b == [] {
      assert a + b == a;
    } else {
      assert (a + b)[..|a + b| - 1] == a + b[..|b| - 1];
      UnderConcat(a, b[..|b| - 1], k);
    }
  }

  lemma UnderRemove(s: seq<nat>, k: nat, i: nat)
    requires i < |s|
    ensures Under(s, k) == Under(s[..i] + s[i + 1..], k) + if Bucket(s[i]) < k then 1 else 0
  {
    var one := [s[i]];
    assert s == s[..i] + (one + s[i + 1..]) && one[..0] == [];
    UnderConcat(s[..i], one + s[i + 1..], k);
    UnderConcat(one, s[i + 1..], k);
    UnderConcat(s[..i], s[i + 1..], k);
  }

  lemma RemoveMultiset(s: seq<nat>, i: nat)
    requires i < |s|
    ensures multiset(s[..i] + s[i + 1..]) == multiset(s) - multiset{s[i]}
  {
    assert s == s[..i] + [s[i]] + s[i + 1..];
  }

  /** Bucket counts do not depend on the order of recording. */
  lemma {:induction false} UnderPermuted(a: seq<nat>, b: seq<nat>, k: nat)
    requires multiset(a) == multiset(b)
    ensures Under(a, k) == Under(b, k)
    decreases |a|
  {
    if a == [] {
      assert |b| == |multiset(b)| == 0;
    } else {
      var last := |a| - 1;
      var x := a[last];
      assert x in multiset(b) by { assert x in multiset(a); }
      var i :| 0 <= i < |b| && b[i] == x;
      RemoveMultiset(a, last);
      RemoveMultiset(b, i);
      assert a[..last] + a[last + 1..] == a[..last];
      UnderPermuted(a[..last], b[..i] + b[i + 1..], k);
      UnderRemove(b, k, i);
    }
  }

  /**
   The bucket the report picks holds the lower median of the raw samples, whatever order
   they were recorded in; so outside the open-ended bucket its midpoint is within half a
   millisecond of that sample.
   */
  lemma MedianExact(samples: seq<nat>, sorted: seq<nat>, bucket: int)
    requires samples != [] && Ascending(sorted) && multiset(sorted) == multiset(samples)
    requires MedianBucket(Recorded(samples), bucket)
    ensures |sorted| == |samples|
    ensures bucket == Bucket(sorted[(|samples| - 1) / 2])
    ensures bucket < HB - 1 ==> bucket * MS <= sorted[(|samples| - 1) / 2] < (bucket + 1) * MS
  {
    assert |sorted| == |multiset(sorted)| == |multiset(samples)| == |samples|;
    var m := (|samples| - 1) / 2;
    var b := Bucket(sorted[m]);
    RecordedTotal(samples);
    RankOf(samples, sorted, bucket + 1, m);
    RankOf(samples, sorted, b + 1, m);
  }

  /** The buckets below `k` hold more than `m` samples exactly when they hold the `m`-th smallest. */
  lemma RankOf(samples: seq<nat>, sorted: seq<nat>, k: nat, m: nat)
    requires Ascending(sorted) && multiset(sorted) == multiset(samples) && m < |sorted| && k <= HB
    ensures Cumulative(Recorded(samples), k) > m <==> Bucket(sorted[m]) < k
  {
    CumulativeIsUnder(samples, k);
    UnderPermuted(sorted, samples, k);
    UnderAscending(sorted, k, m);
  }

  /** The figure is within half a millisecond of the lower median, unless that overflowed. */
  lemma P50Within(samples: seq<nat>, sorted: seq<nat>, ms: real)
    requires samples != [] && Ascending(sorted) && multiset(sorted) == multiset(samples)
    requires IsP50(Recorded(samples), ms)
    ensures |sorted| == |samples|
    ensures
      var median := sorted[(|samples| - 1) / 2];
      && ms == Bucket(median) as real + 0.5
      && (ms < (HB - 1) as real ==> -0.5 <= ms - median as real / MS as real <= 0.5)
  {
    var i :| MedianBucket(Recorded(samples), i) && ms == if i < 0 then 0.0 else i as real + 0.5;
    MedianExact(samples, sorted, i);
    if i < HB - 1 {
      HalfWay(i, sorted[(|samples| - 1) / 2]);
    }
  }

  lemma HalfWay(i: nat, ns: nat)
    requires i * MS <= ns < (i + 1) * MS
    ensures -0.5 <= i as real + 0.5 - ns as real / MS as real <= 0.5
  {
    assert (i * MS) as real == i as real * MS as real;
    assert ((i + 1) * MS) as real == (i as real + 1.0) * MS as real;
    var q := ns as real / MS as real;
    assert q * MS as real == ns as real;
  }

  /** Below 511 ms a sample's own millisecond is its bucket; everything from there on shares the last. */
  lemma BucketOf(ns: nat)
    ensures ns < 511_000_000 ==> Bucket(ns) * 1_000_000 <= ns < (Bucket(ns) + 1) * 1_000_000
    ensures ns >= 511_000_000 <==> Bucket(ns) == 511
  {
  }

  /**
   What the report reads, in numbers: a lower median below 511 ms within half a millisecond, and
   511.5 for exactly those from 511 ms on.
   */
  lemma P50Exact(samples: seq<nat>, sorted: seq<nat>, ms: real)
    requires samples != [] && Ascending(sorted) && multiset(sorted) == multiset(samples)
    requires IsP50(Recorded(samples), ms)
    ensures |sorted| == |samples|
    ensures
      var median := sorted[(|samples| - 1) / 2];
      && (median < 511_000_000 ==> -0.5 <= ms - median as real / 1_000_000.0 <= 0.5)
      && (median >= 511_000_000 <==> ms == 511.5)
  {
    P50Within(samples, sorted, ms);
    var median := sorted[(|samples| - 1) / 2];
    BucketOf(median);
    if median < 511_000_000 {
      HalfWay(Bucket(median), median);
    }
  }
}
