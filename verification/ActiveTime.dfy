/**
 The wall time with at least one HTTP request outstanding, as the report's SQL computes it:
 rows in start order, a running reach, an island number from a running sum of the starts
 that lie past it, and the sum of the islands' extents. Times are whole microseconds.
 */
module ActiveTime {
  import opened Options

  /** The half-open interval of a request. */
  datatype Span = Span(s: int, e: int)

  /** Rows by start, no interval ending before it starts. */
  predicate Ordered(rows: seq<Span>) {
    rows == [] ||
    (Last(rows).s <= Last(rows).e && Ordered(Front(rows)) && (|rows| > 1 ==> Last(Front(rows)).s <= Last(rows).s))
  }

  lemma {:induction false} OrderedMeans(rows: seq<Span>, i: nat, j: nat)
    requires Ordered(rows) && i <= j < |rows|
    ensures rows[i].s <= rows[i].e && rows[i].s <= rows[j].s
  {
    if |rows| > 1 && i < |rows| - 1 {
      OrderedMeans(Front(rows), i, if j == |rows| - 1 then j - 1 else j);
    }
  }

  function Front<T>(s: seq<T>): seq<T> requires s != [] { s[..|s| - 1] }

  function Last<T>(s: seq<T>): T requires s != [] { s[|s| - 1] }

  function Max(a: int, b: int): int { if a < b then b else a }

  function Min(a: int, b: int): int { if a < b then a else b }

  // ----- the query, stage by stage -----

  datatype Flagged = Flagged(span: Span, start: bool)

  datatype Labelled = Labelled(span: Span, island: nat)

  /** The largest end so far. */
  function Reach(rows: seq<Span>): int
    requires rows != []
  {
    if |rows| == 1 then rows[0].e else Max(Reach(Front(rows)), Last(rows).e)
  }

  /** First window: a row starts an island when nothing before it reaches its start. */
  function Flags(rows: seq<Span>): (fs: seq<Flagged>)
    ensures |fs| == |rows|
  {
    if rows == [] then []
    else Flags(Front(rows)) + [Flagged(Last(rows), |rows| == 1 || Last(rows).s > Reach(Front(rows)))]
  }

  function Starts(fs: seq<Flagged>): nat {
    if fs == [] then 0 else Starts(Front(fs)) + if Last(fs).start then 1 else 0
  }

  /** Second window: the running sum of the starts. */
  function Labels(fs: seq<Flagged>): (ls: seq<Labelled>)
    ensures |ls| == |fs|
  {
    if fs == [] then [] else Labels(Front(fs)) + [Labelled(Last(fs).span, Starts(fs))]
  }

  /** The group of one island: its least start and its greatest end. */
  function Lo(ls: seq<Labelled>, k: nat): Option<int> {
    if ls == [] then None
    else
      var rest := Lo(Front(ls), k);
      if Last(ls).island != k then rest
      else if rest.None? then Some(Last(ls).span.s)
      else Some(Min(rest.value, Last(ls).span.s))
  }

  function Hi(ls: seq<Labelled>, k: nat): Option<int> {
    if ls == [] then None
    else
      var rest := Hi(Front(ls), k);
      if Last(ls).island != k then rest
      else if rest.None? then Some(Last(ls).span.e)
      else Some(Max(rest.value, Last(ls).span.e))
  }

  function Extent(ls: seq<Labelled>, k: nat): int {
    if Lo(ls, k).Some? && Hi(ls, k).Some? then Hi(ls, k).value - Lo(ls, k).value else 0
  }

  function SumExtents(ls: seq<Labelled>, n: nat): int {
    Extent(ls, n) + if n == 0 then 0 else SumExtents(ls, n - 1)
  }

  /** The query's figure when both windows read the rows in one order. */
  function Active(rows: seq<Span>): int {
    SumExtents(Labels(Flags(rows)), Starts(Flags(rows)))
  }

  // ----- what it is meant to be -----

  function Points(s: int, e: int): (points: set<int>)
    ensures forall t :: t in points <==> s <= t < e
    decreases e - s
  {
    if s >= e then {} else Points(s, e - 1) + {e - 1}
  }

  /** The instants covered by some row. */
  function Cover(rows: seq<Span>): set<int> {
    if rows == [] then {} else Cover(Front(rows)) + Points(Last(rows).s, Last(rows).e)
  }

  lemma {:induction false} PointCount(s: int, e: int)
    requires s <= e
    ensures |Points(s, e)| == e - s
    decreases e - s
  {
    if s < e {
      PointCount(s, e - 1);
      assert Points(s, e) == Points(s, e - 1) + {e - 1};
    }
  }

  lemma {:induction false} CoverMembers(rows: seq<Span>, t: int)
    ensures t in Cover(rows) <==> exists r <- rows :: r.s <= t < r.e
  {
    if rows != [] {
      CoverMembers(Front(rows), t);
      assert forall r :: r in rows <==> r in Front(rows) || r == Last(rows);
    }
  }

  lemma {:induction false} ReachIs(rows: seq<Span>)
    requires rows != []
    ensures forall r <- rows :: r.e <= Reach(rows)
    ensures exists r <- rows :: r.e == Reach(rows)
  {
    assert forall r :: r in rows <==> r == Last(rows) || (|rows| > 1 && r in Front(rows));
    if |rows| > 1 {
      ReachIs(Front(rows));
    }
  }

  /** What the next row in start order adds: the stretch past the reach. */
  function Growth(before: seq<Span>, x: Span): int
    requires before != []
  {
    if x.s > Reach(before) then x.e - x.s else Max(0, x.e - Reach(before))
  }

  /** Up to the reach, everything from the new row's start on is covered already. */
  lemma CoveredToReach(before: seq<Span>, x: Span, t: int)
    requires before != [] && Ordered(before) && Last(before).s <= x.s
    ensures x.s <= t < Reach(before) ==> t in Cover(before)
    ensures t >= Reach(before) ==> t !in Cover(before)
  {
    CoverMembers(before, t);
    ReachIs(before);
    var k :| 0 <= k < |before| && before[k].e == Reach(before);
    OrderedMeans(before, k, |before| - 1);
    assert before[k] in before;
  }

  lemma UnionSize(a: set<int>, s: int, reach: int, e: int)
    requires s <= e
    requires forall t | s <= t < reach :: t in a
    requires forall t <- a :: t < reach
    ensures |a + Points(s, e)| == |a| + if s > reach then e - s else Max(0, e - reach)
  {
    var from := Max(s, reach);
    var added := Points(from, e);
    assert a + Points(s, e) == a + added;
    DisjointSize(a, added);
    if from <= e {
      PointCount(from, e);
    }
  }

  lemma DisjointSize<T>(a: set<T>, b: set<T>)
    requires a !! b
    ensures |a + b| == |a| + |b|
  {
  }

  lemma CoverStep(before: seq<Span>, x: Span)
    requires before != [] && Ordered(before) && Last(before).s <= x.s <= x.e
    ensures |Cover(before + [x])| == |Cover(before)| + Growth(before, x)
  {
    var a := Cover(before);
    forall t | x.s <= t < Reach(before) ensures t in a {
      CoveredToReach(before, x, t);
    }
    forall t | t in a ensures t < Reach(before) {
      CoveredToReach(before, x, t);
    }
    UnionSize(a, x.s, Reach(before), x.e);
    assert Front(before + [x]) == before;
  }

  // ----- the islands of a prefix -----

  lemma {:induction false} NoLabelAbove(ls: seq<Labelled>, k: nat)
    requires forall l <- ls :: l.island < k
    ensures Lo(ls, k) == None && Hi(ls, k) == None
  {
    if ls != [] {
      assert Last(ls) in ls && forall l <- Front(ls) :: l in ls;
      NoLabelAbove(Front(ls), k);
    }
  }

  lemma {:induction false} OtherIslands(ls: seq<Labelled>, x: Labelled, n: nat)
    requires n < x.island
    ensures SumExtents(ls + [x], n) == SumExtents(ls, n)
  {
    assert Front(ls + [x]) == ls;
    if n > 0 {
      OtherIslands(ls, x, n - 1);
    }
  }

  /** The labelled rows of a prefix: the island being filled runs up to the reach. */
  predicate Filling(rows: seq<Span>, ls: seq<Labelled>, n: nat)
    requires rows != []
  {
    && n >= 1 && (forall l <- ls :: l.island <= n)
    && Hi(ls, n) == Some(Reach(rows)) && Lo(ls, n).Some? && Lo(ls, n).value <= Last(rows).s
  }

  lemma FirstRow(x: Span)
    requires x.s <= x.e
    ensures Labels(Flags([x])) == [Labelled(x, 1)] && Starts(Flags([x])) == 1
    ensures Filling([x], [Labelled(x, 1)], 1)
    ensures SumExtents([Labelled(x, 1)], 1) == x.e - x.s
  {
    var ls := [Labelled(x, 1)];
    assert Front([x]) == [] && Front(ls) == [];
    assert Flags([x]) == [Flagged(x, true)] && Front(Flags([x])) == [];
    assert Starts(Flags([x])) == 1 && Labels(Front(Flags([x]))) == [];
    assert Lo([], 1) == None == Hi([], 1) && Lo([], 0) == None == Hi([], 0);
    assert Extent(ls, 1) == x.e - x.s && Extent(ls, 0) == 0;
  }

  /** A row past the reach opens the next island with its own extent. */
  lemma OpensIsland(before: seq<Span>, ls: seq<Labelled>, n: nat, x: Span)
    requires before != [] && Filling(before, ls, n) && x.s > Reach(before) && x.s <= x.e
    ensures Filling(before + [x], ls + [Labelled(x, n + 1)], n + 1)
    ensures SumExtents(ls + [Labelled(x, n + 1)], n + 1) == SumExtents(ls, n) + x.e - x.s
  {
    var added := Labelled(x, n + 1);
    assert Front(ls + [added]) == ls && Front(before + [x]) == before;
    NoLabelAbove(ls, n + 1);
    OtherIslands(ls, added, n);
  }

  /** A row within the reach stretches the current island, if it ends past the reach. */
  lemma StretchesIsland(before: seq<Span>, ls: seq<Labelled>, n: nat, x: Span)
    requires before != [] && Filling(before, ls, n) && Last(before).s <= x.s <= Reach(before)
    ensures Filling(before + [x], ls + [Labelled(x, n)], n)
    ensures SumExtents(ls + [Labelled(x, n)], n) == SumExtents(ls, n) + Max(0, x.e - Reach(before))
  {
    var added := Labelled(x, n);
    assert Front(ls + [added]) == ls && Front(before + [x]) == before;
    OtherIslands(ls, added, n - 1);
  }

  /** What the two windows do to one more row. */
  lemma StagesStep(before: seq<Span>, x: Span)
    requires before != []
    ensures
      var fs0, fs := Flags(before), Flags(before + [x]);
      var n := Starts(fs0) + if x.s > Reach(before) then 1 else 0;
      Starts(fs) == n && Labels(fs) == Labels(fs0) + [Labelled(x, n)]
  {
    var rows, fs := before + [x], Flags(before + [x]);
    assert Front(rows) == before && Last(rows) == x;
    assert fs == Flags(before) + [Flagged(x, x.s > Reach(before))];
    assert Front(fs) == Flags(before);
  }

  /**
   The query's figure is the measure of the union of the intervals.
   */
  lemma {:induction false} ActiveIsUnion(rows: seq<Span>)
    requires Ordered(rows) && rows != []
    ensures Active(rows) == |Cover(rows)|
    ensures Filling(rows, Labels(Flags(rows)), Starts(Flags(rows)))
    decreases |rows|
  {
    if |rows| == 1 {
      assert rows == [rows[0]];
      SingleRow(rows[0]);
    } else {
      ActiveIsUnion(Front(rows));
      NextRow(Front(rows), Last(rows));
      assert rows == Front(rows) + [Last(rows)];
    }
  }

  lemma SingleRow(x: Span)
    requires x.s <= x.e
    ensures Active([x]) == |Cover([x])| && Filling([x], Labels(Flags([x])), Starts(Flags([x])))
  {
    FirstRow(x);
    PointCount(x.s, x.e);
    assert Front([x]) == [] && Cover([]) == {};
    assert Cover([x]) == Points(x.s, x.e);
  }

  lemma NextRow(before: seq<Span>, x: Span)
    requires Ordered(before) && before != [] && Last(before).s <= x.s <= x.e
    requires Active(before) == |Cover(before)|
    requires Filling(before, Labels(Flags(before)), Starts(Flags(before)))
    ensures Active(before + [x]) == |Cover(before + [x])|
    ensures Filling(before + [x], Labels(Flags(before + [x])), Starts(Flags(before + [x])))
  {
    var rows := before + [x];
    StagesStep(before, x);
    ExtendFilling(before, x, Labels(Flags(before)), Starts(Flags(before)), Labels(Flags(rows)), Starts(Flags(rows)));
    CoverStep(before, x);
  }

  lemma ExtendFilling(before: seq<Span>, x: Span, ls: seq<Labelled>, n: nat, ls': seq<Labelled>, n': nat)
    requires before != [] && Filling(before, ls, n) && Last(before).s <= x.s <= x.e
    requires n' == n + if x.s > Reach(before) then 1 else 0
    requires ls' == ls + [Labelled(x, n')]
    ensures Filling(before + [x], ls', n')
    ensures SumExtents(ls', n') == SumExtents(ls, n) + Growth(before, x)
  {
    if x.s > Reach(before) {
      OpensIsland(before, ls, n, x);
    } else {
      StretchesIsland(before, ls, n, x);
    }
  }

  // ----- consequences -----

  function Durations(rows: seq<Span>): int {
    if rows == [] then 0 else Durations(Front(rows)) + Last(rows).e - Last(rows).s
  }

  lemma {:induction false} CoverWithinDurations(rows: seq<Span>)
    requires Ordered(rows)
    ensures |Cover(rows)| <= Durations(rows)
  {
    if rows != [] {
      CoverWithinDurations(Front(rows));
      var a, b := Cover(Front(rows)), Points(Last(rows).s, Last(rows).e);
      PointCount(Last(rows).s, Last(rows).e);
      assert |a + b| == |a| + |b| - |a * b|;
    }
  }

  lemma Subset<T>(a: set<T>, b: set<T>)
    requires a <= b
    ensures |a| <= |b|
  {
    assert b == a + (b - a);
  }

  lemma CoverWithinWindow(rows: seq<Span>)
    requires Ordered(rows) && rows != []
    ensures |Cover(rows)| <= Reach(rows) - rows[0].s
  {
    ReachIs(rows);
    var first := rows[0];
    assert first in rows;
    OrderedMeans(rows, 0, 0);
    var window := Points(first.s, Reach(rows));
    forall t | t in Cover(rows) ensures t in window {
      CoverMembers(rows, t);
      var r :| r in rows && r.s <= t < r.e;
      var i :| 0 <= i < |rows| && rows[i] == r;
      OrderedMeans(rows, 0, i);
    }
    Subset(Cover(rows), window);
    PointCount(first.s, Reach(rows));
  }

  /** Active time is at most the window from first start to last end, and at most the summed durations. */
  lemma ActiveBounds(rows: seq<Span>)
    requires Ordered(rows) && rows != []
    ensures 0 <= Active(rows) <= Reach(rows) - rows[0].s
    ensures Active(rows) <= Durations(rows)
  {
    ActiveIsUnion(rows);
    CoverWithinDurations(rows);
    CoverWithinWindow(rows);
  }

  /** The figure does not depend on how requests with equal starts are ordered. */
  lemma TieOrderIrrelevant(a: seq<Span>, b: seq<Span>)
    requires Ordered(a) && Ordered(b) && a != [] && multiset(a) == multiset(b)
    ensures Active(a) == Active(b)
  {
    assert forall r :: r in a <==> r in multiset(a);
    assert forall r :: r in b <==> r in multiset(b);
    assert b != [] by { assert a[0] in b; }
    forall t ensures t in Cover(a) <==> t in Cover(b) {
      CoverMembers(a, t);
      CoverMembers(b, t);
    }
    assert Cover(a) == Cover(b);
    ActiveIsUnion(a);
    ActiveIsUnion(b);
  }

  lemma GroupStep(ls: seq<Labelled>, x: Labelled, k: nat)
    ensures x.island != k ==> Lo(ls + [x], k) == Lo(ls, k) && Hi(ls + [x], k) == Hi(ls, k)
    ensures x.island == k && Lo(ls, k) == None && Hi(ls, k) == None
        ==> Lo(ls + [x], k) == Some(x.span.s) && Hi(ls + [x], k) == Some(x.span.e)
    ensures x.island == k && Lo(ls, k).Some? && Hi(ls, k).Some?
        ==> && Lo(ls + [x], k) == Some(Min(Lo(ls, k).value, x.span.s))
            && Hi(ls + [x], k) == Some(Max(Hi(ls, k).value, x.span.e))
  {
    assert Front(ls + [x]) == ls;
  }
}
