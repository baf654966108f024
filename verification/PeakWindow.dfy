/** The busiest second of a run, read off a sampled byte counter with two moving indices. */
module PeakWindow {
  const WINDOW: nat := 1_000_000_000

  /** Nanoseconds since the start, and the counter's value then. */
  datatype Sample = Sample(ns: nat, bytes: nat)

  function RealMax(a: real, b: real): real { if a < b then b else a }

  function Gbps(bytes: int, ns: int): real {
    bytes as real * 8.0 / 1_000_000_000.0 / RealMax(ns as real / 1_000_000_000.0, 0.000000001)
  }

  /** Samples come in time order from a counter that only grows. */
  predicate Ordered(s: seq<Sample>) {
    forall i, j :: 0 <= i <= j < |s| ==> s[i].ns <= s[j].ns && s[i].bytes <= s[j].bytes
  }

  /** `j` is the first sample a full window or more after sample `i`. */
  predicate Closes(s: seq<Sample>, i: int, j: int) {
    && 0 <= i < |s| && 0 <= j < |s|
    && s[j].ns >= s[i].ns + 1_000_000_000
    && forall k :: 0 <= k < j ==> s[k].ns < s[i].ns + 1_000_000_000
  }

  function Rate(s: seq<Sample>, i: int, j: int): real
    requires 0 <= i < |s| && 0 <= j < |s|
  {
    Gbps(s[j].bytes - s[i].bytes, s[j].ns - s[i].ns)
  }

  /** `best` is the largest rate over every start with its closing sample; 0 when none closes. */
  ghost predicate IsPeak(s: seq<Sample>, best: real) {
    && (forall i, j :: Closes(s, i, j) ==> Rate(s, i, j) <= best)
    && (best == 0.0 || exists i, j :: Closes(s, i, j) && best == Rate(s, i, j))
  }

  /** The rate in gigabits a second: eight bits a byte over the nanoseconds between two samples. */
  lemma RateIs(s: seq<Sample>, i: int, j: int)
    requires 0 <= i < |s| && 0 <= j < |s| && s[j].ns > s[i].ns
    ensures Rate(s, i, j) * (s[j].ns - s[i].ns) as real == 8.0 * (s[j].bytes - s[i].bytes) as real
  {
  }

  lemma PeakUnique(s: seq<Sample>, a: real, b: real)
    requires Ordered(s) && IsPeak(s, a) && IsPeak(s, b)
    ensures a == b
  {
    forall i, j | Closes(s, i, j) ensures Rate(s, i, j) >= 0.0 {
      RateNonNegative(s, i, j);
    }
  }

  lemma RateNonNegative(s: seq<Sample>, i: int, j: int)
    requires Ordered(s) && Closes(s, i, j)
    ensures Rate(s, i, j) >= 0.0
  {
    assert i <= j;
    var bytes := (s[j].bytes - s[i].bytes) as real * 8.0 / 1_000_000_000.0;
    var secs := RealMax((s[j].ns - s[i].ns) as real / 1_000_000_000.0, 0.000000001);
    assert bytes >= 0.0 && secs > 0.0;
    assert bytes / secs >= 0.0;
  }

  /** `advances` counts the moves of the inner index over the whole search. */
  method Peak(s: seq<Sample>) returns (best: real, ghost advances: nat)
    requires Ordered(s)
    ensures IsPeak(s, best)
    ensures advances <= |s|
  {
    best := 0.0;
    advances := 0;
    var j := 0;
    for i := 0 to |s|
      invariant 0 <= j <= |s| && advances == j
      invariant forall k :: 0 <= k < j && i < |s| ==> s[k].ns < s[i].ns + WINDOW
      invariant forall a, b :: a < i && Closes(s, a, b) ==> Rate(s, a, b) <= best
      invariant best == 0.0 || exists a, b :: Closes(s, a, b) && best == Rate(s, a, b)
    {
      while j < |s| && s[j].ns < s[i].ns + WINDOW
        invariant 0 <= j <= |s| && advances == j
        invariant forall k :: 0 <= k < j ==> s[k].ns < s[i].ns + WINDOW
      {
        j := j + 1;
        advances := advances + 1;
      }
      if j < |s| {
        assert Closes(s, i, j);
        best := RealMax(best, Rate(s, i, j));
      }
      assert forall b :: Closes(s, i, b) ==> b == j;
    }
  }

  // ----- what the peak can see -----

  /** The first sample at or past a time that the last sample reaches. */
  lemma FirstAt(s: seq<Sample>, time: nat) returns (j: nat)
    requires s != [] && time <= s[|s| - 1].ns
    ensures j < |s| && time <= s[j].ns && forall k :: 0 <= k < j ==> s[k].ns < time
  {
    j := 0;
    while s[j].ns < time
      invariant j < |s| && forall k :: 0 <= k < j ==> s[k].ns < time
      decreases |s| - j
    {
      j := j + 1;
    }
  }

  /** The stretch from sample `k` to the next lies in a start's window to its closing sample. */
  ghost predicate Spanned(s: seq<Sample>, k: int) {
    exists i, j :: Closes(s, i, j) && i <= k < j
  }

  /**
   A stretch lies in a window the search looks at if and only if some start at or before it
   is less than a window older than the stretch, and at least a window older than the last
   sample.
   */
  lemma SpannedIff(s: seq<Sample>, k: nat)
    requires Ordered(s) && k + 1 < |s|
    ensures Spanned(s, k) <==> exists i :: 0 <= i <= k && s[k].ns < s[i].ns + WINDOW <= s[|s| - 1].ns
  {
    if Spanned(s, k) {
      var i, j :| Closes(s, i, j) && i <= k < j;
      assert s[j].ns <= s[|s| - 1].ns;
      assert s[k].ns < s[i].ns + WINDOW;
    }
    if i :| 0 <= i <= k && s[k].ns < s[i].ns + WINDOW <= s[|s| - 1].ns {
      var j := FirstAt(s, s[i].ns + WINDOW);
      assert Closes(s, i, j) && i <= k < j;
    }
  }

  /** The same run with `burst` more bytes between sample `k` and the next. */
  function WithBurst(s: seq<Sample>, k: nat, burst: nat): seq<Sample> {
    seq(|s|, n requires 0 <= n < |s| => if n <= k then s[n] else Sample(s[n].ns, s[n].bytes + burst))
  }

  lemma ClosesByTime(s: seq<Sample>, k: nat, burst: nat, i: int, j: int)
    ensures Closes(WithBurst(s, k, burst), i, j) <==> Closes(s, i, j)
  {
    var s' := WithBurst(s, k, burst);
    assert forall n :: 0 <= n < |s| ==> s'[n].ns == s[n].ns;
  }

  lemma Outside(s: seq<Sample>, k: nat, burst: nat, i: int, j: int)
    requires Ordered(s) && !Spanned(s, k) && Closes(s, i, j)
    ensures Rate(WithBurst(s, k, burst), i, j) == Rate(s, i, j)
  {
    assert i <= j && !(i <= k < j);
  }

  lemma UnspannedUnseen(s: seq<Sample>, k: nat, burst: nat, best: real)
    requires Ordered(s) && !Spanned(s, k)
    ensures IsPeak(WithBurst(s, k, burst), best) <==> IsPeak(s, best)
  {
    var s' := WithBurst(s, k, burst);
    forall i, j ensures Closes(s', i, j) <==> Closes(s, i, j)
                ensures Closes(s, i, j) ==> Rate(s', i, j) == Rate(s, i, j) {
      ClosesByTime(s, k, burst, i, j);
      if Closes(s, i, j) {
        Outside(s, k, burst, i, j);
      }
    }
  }

  lemma BurstRate(bytes: nat, burst: nat, ns: nat, best: real)
    requires best >= 0.0 && ns >= WINDOW && burst as real > best * ns as real
    ensures Gbps(bytes + burst, ns) > best
  {
    var secs := ns as real / 1_000_000_000.0;
    assert RealMax(secs, 0.000000001) == secs && secs * 1_000_000_000.0 == ns as real;
    var rate := (bytes + burst) as real * 8.0 / 1_000_000_000.0;
    assert rate > best * secs;
    Above(rate, secs, best);
  }

  lemma Above(a: real, b: real, c: real)
    requires b > 0.0 && a > c * b
    ensures a / b > c
  {
    assert a / b * b == a;
  }

  /** A burst in a spanned stretch outgrows any peak. */
  lemma SpannedSeen(s: seq<Sample>, k: nat, best: real) returns (burst: nat)
    requires Ordered(s) && Spanned(s, k) && best >= 0.0
    ensures !IsPeak(WithBurst(s, k, burst), best)
  {
    var i, j :| Closes(s, i, j) && i <= k < j;
    var ns := s[j].ns - s[i].ns;
    burst := (best * ns as real).Floor + 1;
    var s' := WithBurst(s, k, burst);
    ClosesByTime(s, k, burst, i, j);
    assert s[i].bytes <= s[j].bytes;
    BurstRate(s[j].bytes - s[i].bytes, burst, ns, best);
    assert Rate(s', i, j) > best;
  }

  ghost predicate Unseen(s: seq<Sample>, k: nat, best: real) {
    forall burst: nat :: IsPeak(WithBurst(s, k, burst), best)
  }

  /**
   The reported peak ignores whatever arrives between two samples if and only if no window
   the search looks at spans them. Such a stretch begins in the last second of the run, with
   no sample that is less than a second before it and at least a second before the end.
   */
  lemma BurstMissedIff(s: seq<Sample>, k: nat, best: real)
    requires Ordered(s) && k + 1 < |s| && IsPeak(s, best)
    ensures Unseen(s, k, best)
       <==> !exists i :: 0 <= i <= k && s[k].ns < s[i].ns + WINDOW <= s[|s| - 1].ns
  {
    SpannedIff(s, k);
    if Spanned(s, k) {
      assert best >= 0.0 by {
        if best != 0.0 {
          var i, j :| Closes(s, i, j) && best == Rate(s, i, j);
          RateNonNegative(s, i, j);
        }
      }
      var burst := SpannedSeen(s, k, best);
      assert !IsPeak(WithBurst(s, k, burst), best);
    } else {
      forall burst: nat ensures IsPeak(WithBurst(s, k, burst), best) {
        UnspannedUnseen(s, k, burst, best);
      }
    }
  }

  /** Samples at 0, 1 and 1.5 seconds: the peak ignores what the last half second brings. */
  lemma LastHalfSecond(best: real) returns (s: seq<Sample>)
    ensures Ordered(s) && |s| == 3 && (IsPeak(s, best) ==> Unseen(s, 1, best))
  {
    s := [Sample(0, 0), Sample(1_000_000_000, 1), Sample(1_500_000_000, 2)];
    if IsPeak(s, best) {
      BurstMissedIff(s, 1, best);
    }
  }
}
