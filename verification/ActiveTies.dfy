/**
 The query's two windows order rows by start alone, so they may disagree on rows of equal
 starts. Here the second window reads the first one's flags in any order by start.
 */
module ActiveTies {
  import opened Options
  import opened ActiveTime

  function SpansOf(fs: seq<Flagged>): (spans: seq<Span>)
    ensures |spans| == |fs| && forall i :: 0 <= i < |fs| ==> spans[i] == fs[i].span
  {
    if fs == [] then [] else SpansOf(Front(fs)) + [Last(fs).span]
  }

  /** The query's figure when the second window reads the flags in this order. */
  function Figure(second: seq<Flagged>): int { SumExtents(Labels(second), Starts(second)) }

  predicate ByStart(fs: seq<Flagged>) { Ordered(SpansOf(fs)) }

  lemma ByStartMore(fs: seq<Flagged>, x: Flagged)
    requires ByStart(fs + [x])
    ensures ByStart(fs) && x.span.s <= x.span.e && (fs != [] ==> Last(fs).span.s <= x.span.s)
    ensures SpansOf(fs + [x]) == SpansOf(fs) + [x.span]
  {
    assert Front(fs + [x]) == fs;
    assert Front(SpansOf(fs + [x])) == SpansOf(fs);
  }

  // ----- the figure, row by row -----

  /** The greatest end of the island being filled. */
  function Top(fs: seq<Flagged>): int
    requires fs != []
  {
    var x := Last(fs);
    if |fs| == 1 || x.start then x.span.e else Max(Top(Front(fs)), x.span.e)
  }

  /** What one more row adds to the figure. */
  function Added(fs: seq<Flagged>, x: Flagged): int {
    if fs == [] || x.start then x.span.e - x.span.s else Max(0, x.span.e - Top(fs))
  }

  predicate Holding(fs: seq<Flagged>, ls: seq<Labelled>, n: nat)
    requires fs != []
  {
    && (forall l <- ls :: l.island <= n)
    && Hi(ls, n) == Some(Top(fs)) && Lo(ls, n).Some? && Lo(ls, n).value <= Last(fs).span.s
  }

  lemma LabelsMore(fs: seq<Flagged>, x: Flagged)
    ensures
      var n := Starts(fs) + if x.start then 1 else 0;
      Starts(fs + [x]) == n && Labels(fs + [x]) == Labels(fs) + [Labelled(x.span, n)]
  {
    assert Front(fs + [x]) == fs;
  }

  lemma TopMore(fs: seq<Flagged>, x: Flagged)
    ensures Top(fs + [x]) == if fs == [] || x.start then x.span.e else Max(Top(fs), x.span.e)
  {
    assert Front(fs + [x]) == fs;
  }

  lemma ExtentMore(ls: seq<Labelled>, x: Labelled, n: nat)
    requires x.island == n && forall l <- ls :: l.island <= n
    ensures SumExtents(ls + [x], n) - Extent(ls + [x], n) == SumExtents(ls, n) - Extent(ls, n)
  {
    if n > 0 {
      OtherIslands(ls, x, n - 1);
    }
  }

  lemma NewIsland(ls: seq<Labelled>, x: Labelled, n: nat)
    requires x.island == n && forall l <- ls :: l.island < n
    ensures Lo(ls + [x], n) == Some(x.span.s) && Hi(ls + [x], n) == Some(x.span.e)
    ensures SumExtents(ls + [x], n) == (if n == 0 then 0 else SumExtents(ls, n - 1)) + x.span.e - x.span.s
  {
    NoLabelAbove(ls, n);
    GroupStep(ls, x, n);
    if n > 0 {
      OtherIslands(ls, x, n - 1);
    }
  }

  lemma SameIsland(fs: seq<Flagged>, ls: seq<Labelled>, x: Labelled, n: nat)
    requires fs != [] && Holding(fs, ls, n) && x.island == n && Last(fs).span.s <= x.span.s
    ensures Hi(ls + [x], n) == Some(Max(Top(fs), x.span.e)) && Lo(ls + [x], n) == Lo(ls, n)
    ensures SumExtents(ls + [x], n) == SumExtents(ls, n) + Max(0, x.span.e - Top(fs))
  {
    GroupStep(ls, x, n);
    ExtentMore(ls, x, n);
  }

  lemma FigureMore(fs: seq<Flagged>, x: Flagged)
    requires ByStart(fs + [x]) && (fs != [] ==> Holding(fs, Labels(fs), Starts(fs)))
    ensures Figure(fs + [x]) == Figure(fs) + Added(fs, x)
    ensures Holding(fs + [x], Labels(fs + [x]), Starts(fs + [x]))
  {
    if fs == [] || x.start {
      FigureOpens(fs, x);
    } else {
      FigureGrows(fs, x);
    }
  }

  lemma FigureOpens(fs: seq<Flagged>, x: Flagged)
    requires ByStart(fs + [x]) && (fs != [] ==> Holding(fs, Labels(fs), Starts(fs))) && (fs == [] || x.start)
    ensures Figure(fs + [x]) == Figure(fs) + x.span.e - x.span.s
    ensures Holding(fs + [x], Labels(fs + [x]), Starts(fs + [x]))
  {
    var n := Starts(fs + [x]);
    ByStartMore(fs, x);
    LabelsMore(fs, x);
    TopMore(fs, x);
    if fs == [] {
      assert Labels(fs) == [];
      EmptyExtents(n);
    }
    NewIsland(Labels(fs), Labelled(x.span, n), n);
  }

  lemma FigureGrows(fs: seq<Flagged>, x: Flagged)
    requires ByStart(fs + [x]) && fs != [] && Holding(fs, Labels(fs), Starts(fs)) && !x.start
    ensures Figure(fs + [x]) == Figure(fs) + Max(0, x.span.e - Top(fs))
    ensures Holding(fs + [x], Labels(fs + [x]), Starts(fs + [x]))
  {
    ByStartMore(fs, x);
    LabelsMore(fs, x);
    TopMore(fs, x);
    SameIsland(fs, Labels(fs), Labelled(x.span, Starts(fs)), Starts(fs));
  }

  lemma {:induction false} EmptyExtents(n: nat)
    ensures SumExtents([], n) == 0
  {
    if n > 0 {
      EmptyExtents(n - 1);
    }
  }

  // ----- what each row wastes -----

  lemma {:induction false} TopWithinReach(fs: seq<Flagged>)
    requires fs != []
    ensures Top(fs) <= Reach(SpansOf(fs))
  {
    var spans := SpansOf(fs);
    if |fs| > 1 {
      assert Front(spans) == SpansOf(Front(fs));
      TopWithinReach(Front(fs));
    }
  }

  /** By how much a row raises the figure above the union's measure. */
  function Wasted(fs: seq<Flagged>, x: Flagged): int {
    if fs == [] then 0 else Added(fs, x) - Growth(SpansOf(fs), x.span)
  }

  function Waste(fs: seq<Flagged>): int { Figure(fs) - |Cover(SpansOf(fs))| }

  lemma CoverMore(fs: seq<Flagged>, x: Flagged)
    requires ByStart(fs + [x])
    ensures |Cover(SpansOf(fs + [x]))|
         == |Cover(SpansOf(fs))| + if fs == [] then x.span.e - x.span.s else Growth(SpansOf(fs), x.span)
  {
    ByStartMore(fs, x);
    if fs == [] {
      assert SpansOf(fs + [x]) == [x.span];
      SingleRow(x.span);
      FirstRow(x.span);
      assert Cover([]) == {};
    } else {
      CoverStep(SpansOf(fs), x.span);
    }
  }

  lemma WastedBounds(fs: seq<Flagged>, x: Flagged)
    requires ByStart(fs + [x])
    ensures Wasted(fs, x) >= 0
    ensures fs != [] && x.start ==>
              (Wasted(fs, x) == 0 <==> x.span.s >= Reach(SpansOf(fs)) || x.span.e == x.span.s)
    ensures fs != [] && !x.start ==>
              (Wasted(fs, x) == 0 <==>
                x.span.s <= Reach(SpansOf(fs)) && (Top(fs) == Reach(SpansOf(fs)) || x.span.e <= Top(fs)))
  {
    ByStartMore(fs, x);
    if fs != [] {
      TopWithinReach(fs);
    }
  }

  predicate AllTight(fs: seq<Flagged>) {
    forall i :: 0 <= i < |fs| ==> Wasted(fs[..i], fs[i]) == 0
  }

  lemma AllTightMore(fs: seq<Flagged>, x: Flagged)
    ensures AllTight(fs + [x]) <==> AllTight(fs) && Wasted(fs, x) == 0
  {
    var gs := fs + [x];
    assert gs[..|fs|] == fs && forall i :: 0 <= i < |fs| ==> gs[..i] == fs[..i];
    if AllTight(gs) {
      forall i | 0 <= i < |fs| ensures Wasted(fs[..i], fs[i]) == 0 {
        assert Wasted(gs[..i], gs[i]) == 0;
      }
      assert Wasted(gs[..|fs|], gs[|fs|]) == 0;
    }
  }

  /** The figure is never below the union, and equal to it exactly when no row wastes anything. */
  lemma {:induction false} WasteIs(fs: seq<Flagged>)
    requires ByStart(fs)
    ensures Waste(fs) >= 0 && (Waste(fs) == 0 <==> AllTight(fs))
    ensures fs != [] ==> Holding(fs, Labels(fs), Starts(fs))
  {
    if fs == [] {
      EmptyExtents(0);
      assert Cover([]) == {};
    } else {
      var front, x := Front(fs), Last(fs);
      assert fs == front + [x];
      ByStartMore(front, x);
      WasteIs(front);
      FigureMore(front, x);
      CoverMore(front, x);
      WastedBounds(front, x);
      AllTightMore(front, x);
    }
  }

  // ----- which rows carry the flag -----

  lemma {:induction false} FlagAt(rows: seq<Span>, i: nat)
    requires i < |rows|
    ensures Flags(rows)[i] == Flagged(rows[i], i == 0 || rows[i].s > Reach(rows[..i]))
  {
    if i < |rows| - 1 {
      FlagAt(Front(rows), i);
      assert Front(rows)[..i] == rows[..i];
    } else {
      assert Front(rows) == rows[..i];
    }
  }

  /** A flagged row lies past all rows that start before it. */
  predicate Opens(fs: seq<Flagged>) {
    forall x, y :: x in fs && y in fs && y.start && x.span.s < y.span.s ==> x.span.e < y.span.s
  }

  /** Everything that starts before `s` also ends before it. */
  predicate PastAll(fs: seq<Flagged>, s: int) { forall y <- fs :: y.span.s < s ==> y.span.e < s }

  predicate FlaggedAt(fs: seq<Flagged>, s: int) { exists y <- fs :: y.start && y.span.s == s }

  /** Where a row lies past all that start before it, one of its ties is flagged. */
  predicate Covered(fs: seq<Flagged>) { forall x <- fs :: PastAll(fs, x.span.s) ==> FlaggedAt(fs, x.span.s) }

  /** Of equal starts at most one is flagged. */
  predicate Single(fs: seq<Flagged>) {
    forall i, j :: 0 <= i < j < |fs| && fs[i].start && fs[j].start ==> fs[i].span.s != fs[j].span.s
  }

  lemma FlagsOpen(rows: seq<Span>)
    requires Ordered(rows)
    ensures Opens(Flags(rows)) && Single(Flags(rows))
  {
    var fs := Flags(rows);
    forall i, j | 0 <= i < |rows| && 0 <= j < |rows| && fs[j].start
      ensures fs[i].span.s < fs[j].span.s ==> fs[i].span.e < fs[j].span.s
      ensures i < j ==> fs[i].span.s != fs[j].span.s
    {
      FlagAt(rows, i);
      FlagAt(rows, j);
      if i < j {
        OrderedMeans(rows, i, j);
        ReachIs(rows[..j]);
        assert rows[i] == rows[..j][i];
      } else {
        OrderedMeans(rows, j, i);
      }
    }
  }

  lemma FirstTie(rows: seq<Span>, i: nat) returns (j: nat)
    requires Ordered(rows) && i < |rows|
    ensures j <= i && rows[j].s == rows[i].s && forall k :: 0 <= k < j ==> rows[k].s < rows[i].s
  {
    j := 0;
    while rows[j].s < rows[i].s
      invariant j <= i && forall k :: 0 <= k < j ==> rows[k].s < rows[i].s
      decreases i - j
    {
      j := j + 1;
    }
    OrderedMeans(rows, j, i);
  }

  lemma FlagsCovered(rows: seq<Span>)
    requires Ordered(rows)
    ensures Covered(Flags(rows))
  {
    var fs := Flags(rows);
    forall x | x in fs && PastAll(fs, x.span.s) ensures FlaggedAt(fs, x.span.s) {
      var i :| 0 <= i < |fs| && fs[i] == x;
      FlagAt(rows, i);
      var j := FirstTie(rows, i);
      FlagAt(rows, j);
      if j > 0 {
        ReachIs(rows[..j]);
        var r :| r in rows[..j] && r.e == Reach(rows[..j]);
        var k :| 0 <= k < j && rows[k] == r;
        FlagAt(rows, k);
        assert fs[k] in fs;
      }
      assert fs[j] in fs && fs[j].start;
    }
  }

  lemma Without<T>(a: seq<T>, i: nat)
    requires i < |a|
    ensures multiset(a[..i] + a[i + 1..]) == multiset(a) - multiset{a[i]}
  {
    assert a == a[..i] + [a[i]] + a[i + 1..];
  }

  lemma StillThere<T>(a: seq<T>, b: seq<T>, i: nat, i': nat, j: nat)
    requires multiset(a) == multiset(b) && i < |a| && j < |a| && i != j && i' < |b| && a[i] == b[i']
    ensures a[j] in b[..i'] + b[i' + 1..]
  {
    Without(a, i);
    Without(b, i');
    var as' := a[..i] + a[i + 1..];
    assert as'[if j < i then j else j - 1] == a[j];
    assert a[j] in multiset(as');
  }

  /** Two places of a list are two places of a permutation of it. */
  lemma TwoPlaces<T>(a: seq<T>, b: seq<T>, i: nat, j: nat) returns (i': nat, j': nat)
    requires multiset(a) == multiset(b) && i < |a| && j < |a| && i != j
    ensures i' < |b| && j' < |b| && i' != j' && b[i'] == a[i] && b[j'] == a[j]
  {
    assert a[i] in multiset(a);
    i' :| i' < |b| && b[i'] == a[i];
    StillThere(a, b, i, i', j);
    var bs' := b[..i'] + b[i' + 1..];
    var k :| 0 <= k < |bs'| && bs'[k] == a[j];
    j' := if k < i' then k else k + 1;
  }

  /** What is known of a permutation of the flags in start order. */
  predicate Sound(second: seq<Flagged>) {
    ByStart(second) && Opens(second) && Covered(second) && Single(second)
  }

  lemma PermutedSound(rows: seq<Span>, second: seq<Flagged>)
    requires Ordered(rows) && multiset(second) == multiset(Flags(rows)) && ByStart(second)
    ensures Sound(second)
  {
    var fs := Flags(rows);
    FlagsOpen(rows);
    FlagsCovered(rows);
    assert forall x :: x in second <==> x in multiset(second);
    assert forall x :: x in fs <==> x in multiset(fs);
    forall i, j | 0 <= i < j < |second| && second[i].start && second[j].start
      ensures second[i].span.s != second[j].span.s
    {
      var i', j' := TwoPlaces(second, fs, i, j);
      if i' < j' {
        assert fs[i'].span.s != fs[j'].span.s;
      } else {
        assert fs[j'].span.s != fs[i'].span.s;
      }
    }
    SameCovered(fs, second);
  }

  lemma SameCovered(a: seq<Flagged>, b: seq<Flagged>)
    requires (forall x :: x in a <==> x in b) && Covered(a)
    ensures Covered(b)
  {
    forall x | x in b && PastAll(b, x.span.s) ensures FlaggedAt(b, x.span.s) {
      assert PastAll(a, x.span.s);
    }
  }

  lemma SpanMembers(fs: seq<Flagged>, r: Span)
    ensures r in SpansOf(fs) <==> exists x <- fs :: x.span == r
  {
    var spans := SpansOf(fs);
    if r in spans {
      var i :| 0 <= i < |spans| && spans[i] == r;
      assert fs[i] in fs;
    }
    if x :| x in fs && x.span == r {
      var i :| 0 <= i < |fs| && fs[i] == x;
      assert spans[i] == r;
    }
  }

  lemma FlagSpans(rows: seq<Span>)
    ensures SpansOf(Flags(rows)) == rows
  {
    forall i | 0 <= i < |rows| ensures SpansOf(Flags(rows))[i] == rows[i] {
      FlagAt(rows, i);
    }
  }

  lemma SameCover(a: seq<Span>, b: seq<Span>)
    requires forall r :: r in a <==> r in b
    ensures Cover(a) == Cover(b)
  {
    forall t ensures t in Cover(a) <==> t in Cover(b) {
      CoverMembers(a, t);
      CoverMembers(b, t);
    }
  }

  lemma SameUnion(rows: seq<Span>, second: seq<Flagged>)
    requires multiset(second) == multiset(Flags(rows))
    ensures Cover(SpansOf(second)) == Cover(rows)
  {
    var fs := Flags(rows);
    assert forall x :: x in second <==> x in multiset(second);
    assert forall x :: x in fs <==> x in multiset(fs);
    FlagSpans(rows);
    forall r ensures r in SpansOf(second) <==> r in rows {
      SpanMembers(second, r);
      SpanMembers(fs, r);
    }
    SameCover(SpansOf(second), rows);
  }

  // ----- which orders of ties do no harm -----

  /** A flagged row that comes after one of its ties. */
  predicate Late(second: seq<Flagged>, j: int) {
    0 < j < |second| && second[j].start && second[j - 1].span.s == second[j].span.s
  }

  predicate NoFlag(second: seq<Flagged>, j: int, i: int) {
    forall k :: 0 <= j < k <= i < |second| ==> !second[k].start
  }

  /** Everything before `j` is over at the first start. */
  predicate ZeroBefore(second: seq<Flagged>, j: int) {
    forall i :: 0 <= i < j <= |second| ==> second[i].span.e == second[0].span.s
  }

  /** `j` and everything up to the next flagged row is over at the first start. */
  predicate ZeroRest(second: seq<Flagged>, j: int) {
    forall i :: 0 <= j <= i < |second| && NoFlag(second, j, i) ==> second[i].span.e == second[0].span.s
  }

  /**
   No flagged row comes after a tie, except one that starts with the very first row when the
   rows before it, or it and the rest of its island, have no length.
   */
  predicate Harmless(second: seq<Flagged>) {
    forall j :: 0 < j < |second| && Late(second, j) ==>
      second[j].span.s == second[0].span.s && (ZeroBefore(second, j) || ZeroRest(second, j))
  }

  /** The reach and the top of the first `i` rows. */
  function ReachTo(second: seq<Flagged>, i: nat): int
    requires 0 < i <= |second|
  {
    Reach(SpansOf(second[..i]))
  }

  function TopTo(second: seq<Flagged>, i: nat): int
    requires 0 < i <= |second|
  {
    Top(second[..i])
  }

  lemma ReachToIs(second: seq<Flagged>, i: nat)
    requires 0 < i <= |second|
    ensures forall k :: 0 <= k < i ==> second[k].span.e <= ReachTo(second, i)
    ensures exists k :: 0 <= k < i && second[k].span.e == ReachTo(second, i)
  {
    var spans := SpansOf(second[..i]);
    ReachIs(spans);
    forall k | 0 <= k < i ensures second[k].span.e <= ReachTo(second, i) {
      assert spans[k] in spans;
    }
    var r :| r in spans && r.e == Reach(spans);
    var k :| 0 <= k < i && spans[k] == r;
    assert second[k].span.e == ReachTo(second, i);
  }

  lemma ReachMore(second: seq<Flagged>, i: nat)
    requires 0 < i < |second|
    ensures ReachTo(second, i + 1) == Max(ReachTo(second, i), second[i].span.e)
    ensures TopTo(second, i + 1)
         == if second[i].start then second[i].span.e else Max(TopTo(second, i), second[i].span.e)
  {
    assert second[..i + 1] == second[..i] + [second[i]];
    assert Front(second[..i + 1]) == second[..i];
    assert Front(SpansOf(second[..i + 1])) == SpansOf(second[..i]);
    TopMore(second[..i], second[i]);
  }

  lemma Order(second: seq<Flagged>, i: nat, j: nat)
    requires ByStart(second) && i <= j < |second|
    ensures second[i].span.s <= second[i].span.e && second[i].span.s <= second[j].span.s
  {
    OrderedMeans(SpansOf(second), i, j);
  }

  lemma {:induction false} OrderedPrefix(rows: seq<Span>, i: nat)
    requires Ordered(rows) && i <= |rows|
    ensures Ordered(rows[..i])
    decreases |rows|
  {
    if i == |rows| {
      assert rows[..i] == rows;
    } else {
      OrderedPrefix(Front(rows), i);
      assert Front(rows)[..i] == rows[..i];
    }
  }

  lemma PrefixByStart(second: seq<Flagged>, i: nat)
    requires ByStart(second) && i <= |second|
    ensures ByStart(second[..i])
  {
    OrderedPrefix(SpansOf(second), i);
    assert SpansOf(second[..i]) == SpansOf(second)[..i];
  }

  lemma WastedAt(second: seq<Flagged>, i: nat)
    requires ByStart(second) && 0 < i < |second|
    ensures
      var x, reach, top := second[i], ReachTo(second, i), TopTo(second, i);
      && top <= reach
      && (Wasted(second[..i], x) == 0 <==>
            if x.start then x.span.s >= reach || x.span.e == x.span.s
            else x.span.s <= reach && (top == reach || x.span.e <= top))
  {
    var before := second[..i];
    PrefixByStart(second, i + 1);
    assert second[..i + 1] == before + [second[i]];
    WastedBounds(before, second[i]);
    TopWithinReach(before);
  }

  /** The first row's end is the reach, or the island being filled stays without length. */
  predicate Steady(second: seq<Flagged>, i: nat)
    requires 0 < i <= |second|
  {
    || TopTo(second, i) == ReachTo(second, i)
    || exists j :: 0 <= j < i && second[j].start && NoFlag(second, j, i - 1) && ZeroRest(second, j)
  }

  lemma Past(second: seq<Flagged>, i: nat, j: nat)
    requires Opens(second) && i < |second| && j < |second|
    ensures second[j].start && second[i].span.s < second[j].span.s ==> second[i].span.e < second[j].span.s
  {
    assert second[i] in second && second[j] in second;
  }

  /** Between ties there are only ties. */
  lemma TieBefore(second: seq<Flagged>, k: nat, i: nat)
    requires ByStart(second) && k < i < |second| && second[k].span.s >= second[i].span.s
    ensures second[i - 1].span.s == second[i].span.s
  {
    Order(second, k, i - 1);
    Order(second, i - 1, i);
  }

  /** A flagged row within the reach comes after a tie. */
  lemma WithinIsLate(second: seq<Flagged>, i: nat)
    requires ByStart(second) && Opens(second)
    requires 0 < i < |second| && second[i].start && second[i].span.s <= ReachTo(second, i)
    ensures Late(second, i)
  {
    ReachToIs(second, i);
    var k :| 0 <= k < i && second[k].span.e == ReachTo(second, i);
    Past(second, k, i);
    TieBefore(second, k, i);
  }

  lemma AllBefore(second: seq<Flagged>, i: nat)
    requires ByStart(second) && 0 < i < |second| && second[i].span.s > ReachTo(second, i)
    ensures PastAll(second, second[i].span.s)
  {
    ReachToIs(second, i);
    forall y | y in second && y.span.s < second[i].span.s ensures y.span.e < second[i].span.s {
      var k :| 0 <= k < |second| && second[k] == y;
      if k >= i {
        Order(second, i, k);
      }
    }
  }

  lemma FlagOf(second: seq<Flagged>, i: nat) returns (j: nat)
    requires Covered(second) && i < |second| && PastAll(second, second[i].span.s)
    ensures j < |second| && second[j].start && second[j].span.s == second[i].span.s
  {
    assert second[i] in second;
    assert FlaggedAt(second, second[i].span.s);
    var y :| y in second && y.start && y.span.s == second[i].span.s;
    j :| 0 <= j < |second| && second[j] == y;
  }

  /** A row past the reach without the flag has it behind it, on a tie. */
  lemma PastIsLate(second: seq<Flagged>, i: nat) returns (j: nat)
    requires ByStart(second) && Covered(second)
    requires 0 < i < |second| && !second[i].start && second[i].span.s > ReachTo(second, i)
    ensures i < j && Late(second, j) && second[j].span.s == second[i].span.s
  {
    AllBefore(second, i);
    j := FlagOf(second, i);
    TieBehind(second, i, j);
  }

  lemma TieBehind(second: seq<Flagged>, i: nat, j: nat)
    requires ByStart(second) && 0 < i < |second| && j < |second|
    requires !second[i].start && second[j].start && second[j].span.s == second[i].span.s > ReachTo(second, i)
    ensures i < j && Late(second, j)
  {
    ReachToIs(second, i);
    Order(second, j, j);
    if i < j {
      Order(second, i, j - 1);
      Order(second, j - 1, j);
    }
  }

  /** A flagged row wastes nothing, and leaves the island steady. */
  lemma SteadyFlag(second: seq<Flagged>, i: nat)
    requires ByStart(second) && Opens(second) && Harmless(second) && 0 < i < |second| && second[i].start
    ensures Wasted(second[..i], second[i]) == 0 && Steady(second, i + 1)
  {
    var x, s0 := second[i].span, second[0].span.s;
    WastedAt(second, i);
    ReachMore(second, i);
    ReachToIs(second, i);
    Order(second, 0, i);
    Order(second, i, i);
    if x.s <= ReachTo(second, i) {
      WithinIsLate(second, i);
      assert x.s == s0 && (ZeroBefore(second, i) || ZeroRest(second, i));
      if ZeroRest(second, i) {
        assert NoFlag(second, i, i);
      }
    }
  }

  /** A row without the flag lies within the reach. */
  lemma WithinReach(second: seq<Flagged>, i: nat)
    requires ByStart(second) && Covered(second) && Harmless(second) && 0 < i < |second| && !second[i].start
    ensures second[i].span.s <= ReachTo(second, i)
  {
    if second[i].span.s > ReachTo(second, i) {
      ReachToIs(second, i);
      Order(second, 0, 0);
      var j := PastIsLate(second, i);
      assert false;
    }
  }

  lemma SteadyFull(second: seq<Flagged>, i: nat)
    requires ByStart(second) && 0 < i < |second| && !second[i].start && TopTo(second, i) == ReachTo(second, i)
    requires second[i].span.s <= ReachTo(second, i)
    ensures Wasted(second[..i], second[i]) == 0 && TopTo(second, i + 1) == ReachTo(second, i + 1)
  {
    WastedAt(second, i);
    ReachMore(second, i);
  }

  lemma SteadyZero(second: seq<Flagged>, i: nat, j: nat)
    requires ByStart(second) && j < i < |second| && !second[i].start && second[j].start
    requires NoFlag(second, j, i - 1) && ZeroRest(second, j) && second[i].span.s <= ReachTo(second, i)
    ensures Wasted(second[..i], second[i]) == 0 && NoFlag(second, j, i)
  {
    assert NoFlag(second, j, i);
    assert second[i].span.e == second[0].span.s;
    WastedAt(second, i);
    TopNotBelow(second, i);
  }

  lemma SteadyPlain(second: seq<Flagged>, i: nat)
    requires ByStart(second) && 0 < i < |second| && Steady(second, i) && !second[i].start
    requires second[i].span.s <= ReachTo(second, i)
    ensures Wasted(second[..i], second[i]) == 0 && Steady(second, i + 1)
  {
    if TopTo(second, i) == ReachTo(second, i) {
      SteadyFull(second, i);
    } else {
      var j :| 0 <= j < i && second[j].start && NoFlag(second, j, i - 1) && ZeroRest(second, j);
      SteadyZero(second, i, j);
    }
  }

  lemma SteadyStep(second: seq<Flagged>, i: nat)
    requires Sound(second) && Harmless(second) && 0 < i < |second| && Steady(second, i)
    ensures Wasted(second[..i], second[i]) == 0 && Steady(second, i + 1)
  {
    if second[i].start {
      SteadyFlag(second, i);
    } else {
      WithinReach(second, i);
      SteadyPlain(second, i);
    }
  }

  lemma TopNotBelow(second: seq<Flagged>, i: nat)
    requires ByStart(second) && 0 < i <= |second|
    ensures TopTo(second, i) >= second[0].span.s
  {
    assert Last(second[..i]) == second[i - 1];
    Order(second, 0, i - 1);
    Order(second, i - 1, i - 1);
  }

  lemma HarmlessIsTight(second: seq<Flagged>)
    requires Sound(second) && Harmless(second)
    ensures AllTight(second)
  {
    if second != [] {
      assert Wasted(second[..0], second[0]) == 0;
      for i := 1 to |second|
        invariant Steady(second, i)
        invariant forall k :: 0 <= k < i ==> Wasted(second[..k], second[k]) == 0
      {
        SteadyStep(second, i);
      }
    }
  }

  lemma TightAt(second: seq<Flagged>, i: nat)
    requires AllTight(second) && i < |second|
    ensures Wasted(second[..i], second[i]) == 0
  {
  }

  lemma ReachBefore(second: seq<Flagged>, i: nat, j: nat)
    requires Opens(second) && 0 < i <= j < |second| && second[j].start
    requires forall k :: 0 <= k < i ==> second[k].span.s < second[j].span.s
    ensures ReachTo(second, i) < second[j].span.s
  {
    ReachToIs(second, i);
    var k :| 0 <= k < i && second[k].span.e == ReachTo(second, i);
    Past(second, k, j);
  }

  lemma FirstOfTies(second: seq<Flagged>, j: nat) returns (i: nat)
    requires ByStart(second) && Single(second) && Late(second, j)
    ensures i < j && second[i].span.s == second[j].span.s && !second[i].start
    ensures forall k :: 0 <= k < i ==> second[k].span.s < second[j].span.s
  {
    i := FirstTie(SpansOf(second), j);
    assert forall k :: 0 <= k < |second| ==> SpansOf(second)[k] == second[k].span;
    assert second[j - 1].span.s == second[j].span.s;
  }

  /** A late flag without waste belongs to the first start. */
  lemma LateIsFirst(second: seq<Flagged>, j: nat)
    requires ByStart(second) && Opens(second) && Single(second) && AllTight(second) && Late(second, j)
    ensures second[j].span.s == second[0].span.s
  {
    var i := FirstOfTies(second, j);
    if i > 0 {
      ReachBefore(second, i, j);
      TightAt(second, i);
      WastedAt(second, i);
      assert false;
    }
  }

  /** A row without the flag, once the island is behind a longer one before it. */
  lemma RestStep(second: seq<Flagged>, i: nat, top: int, reach: int)
    requires ByStart(second) && AllTight(second) && 0 < i < |second| && !second[i].start
    requires top == TopTo(second, i) == second[0].span.s < reach == ReachTo(second, i)
    ensures second[i].span.e == second[0].span.s == TopTo(second, i + 1) < ReachTo(second, i + 1)
  {
    ReachMore(second, i);
    TightAt(second, i);
    WastedAt(second, i);
    Order(second, 0, i);
    Order(second, i, i);
  }

  /** The same from `j` on, with the tops and reaches as lists. */
  lemma {:induction false} RestOfLists(second: seq<Flagged>, tops: seq<int>, reaches: seq<int>, j: nat, i: nat)
    requires j <= i < |second| && |tops| == |reaches| == |second|
    requires second[j].span.e == second[0].span.s == tops[j] < reaches[j]
    requires forall k :: j < k <= i ==> Passes(second, tops, reaches, k)
    ensures second[i].span.e == second[0].span.s == tops[i] < reaches[i]
  {
    if j < i {
      RestOfLists(second, tops, reaches, j, i - 1);
      assert Passes(second, tops, reaches, i);
    }
  }

  predicate Passes(second: seq<Flagged>, tops: seq<int>, reaches: seq<int>, k: nat)
    requires 0 < k < |second| == |tops| == |reaches|
  {
    tops[k - 1] == second[0].span.s < reaches[k - 1] ==> second[k].span.e == second[0].span.s == tops[k] < reaches[k]
  }

  /** The tops and reaches of all beginnings. */
  predicate Lists(second: seq<Flagged>, tops: seq<int>, reaches: seq<int>) {
    && |tops| == |reaches| == |second|
    && forall k :: 0 < k <= |second| ==> tops[k - 1] == TopTo(second, k) && reaches[k - 1] == ReachTo(second, k)
  }

  lemma SomeLists(second: seq<Flagged>) returns (tops: seq<int>, reaches: seq<int>)
    ensures Lists(second, tops, reaches)
  {
    tops, reaches := [], [];
    for n := 0 to |second|
      invariant |tops| == |reaches| == n
      invariant forall k :: 0 < k <= n ==> tops[k - 1] == TopTo(second, k) && reaches[k - 1] == ReachTo(second, k)
    {
      tops, reaches := tops + [TopTo(second, n + 1)], reaches + [ReachTo(second, n + 1)];
    }
  }

  lemma PassesIf(second: seq<Flagged>, tops: seq<int>, reaches: seq<int>, k: nat)
    requires ByStart(second) && AllTight(second) && 0 < k < |second| == |tops| == |reaches| && !second[k].start
    requires tops[k - 1] == TopTo(second, k) && reaches[k - 1] == ReachTo(second, k)
    requires tops[k] == TopTo(second, k + 1) && reaches[k] == ReachTo(second, k + 1)
    ensures Passes(second, tops, reaches, k)
  {
    if tops[k - 1] == second[0].span.s < reaches[k - 1] {
      RestStep(second, k, tops[k - 1], reaches[k - 1]);
    }
  }

  lemma ListAt(second: seq<Flagged>, tops: seq<int>, reaches: seq<int>, k: nat)
    requires Lists(second, tops, reaches) && k < |second|
    ensures tops[k] == TopTo(second, k + 1) && reaches[k] == ReachTo(second, k + 1)
  {
    var n := k + 1;
    assert tops[n - 1] == TopTo(second, n) && reaches[n - 1] == ReachTo(second, n);
  }

  lemma ListsStart(second: seq<Flagged>, tops: seq<int>, reaches: seq<int>, j: nat)
    requires Lists(second, tops, reaches) && Late(second, j)
    requires second[j].span.e == second[0].span.s < ReachTo(second, j)
    ensures tops[j] == second[0].span.s < reaches[j]
  {
    ReachMore(second, j);
    ListAt(second, tops, reaches, j);
  }

  lemma AllPass(second: seq<Flagged>, tops: seq<int>, reaches: seq<int>, k: nat)
    requires ByStart(second) && AllTight(second) && Lists(second, tops, reaches) && 0 < k < |second| && !second[k].start
    ensures Passes(second, tops, reaches, k)
  {
    ListAt(second, tops, reaches, k - 1);
    ListAt(second, tops, reaches, k);
    PassesIf(second, tops, reaches, k);
  }

  lemma RestIsZero(second: seq<Flagged>, j: nat, i: nat)
    requires ByStart(second) && AllTight(second) && Late(second, j) && j <= i < |second| && NoFlag(second, j, i)
    requires second[j].span.e == second[0].span.s < ReachTo(second, j)
    ensures second[i].span.e == second[0].span.s
  {
    var tops, reaches := SomeLists(second);
    ListsStart(second, tops, reaches, j);
    forall k | j < k <= i ensures Passes(second, tops, reaches, k) {
      assert !second[k].start;
      AllPass(second, tops, reaches, k);
    }
    RestOfLists(second, tops, reaches, j, i);
  }

  lemma BeforeIsZero(second: seq<Flagged>, j: nat)
    requires ByStart(second) && 0 < j < |second| && ReachTo(second, j) <= second[0].span.s
    ensures ZeroBefore(second, j)
  {
    ReachToIs(second, j);
    forall i | 0 <= i < j ensures second[i].span.e == second[0].span.s {
      Order(second, 0, i);
      Order(second, i, i);
    }
  }

  lemma AllRestZero(second: seq<Flagged>, j: nat)
    requires ByStart(second) && AllTight(second) && Late(second, j)
    requires second[j].span.e == second[0].span.s < ReachTo(second, j)
    ensures ZeroRest(second, j)
  {
    forall i | j <= i < |second| && NoFlag(second, j, i) ensures second[i].span.e == second[0].span.s {
      RestIsZero(second, j, i);
    }
  }

  lemma LateIsHarmless(second: seq<Flagged>, j: nat)
    requires ByStart(second) && Opens(second) && Single(second) && AllTight(second) && Late(second, j)
    ensures second[j].span.s == second[0].span.s && (ZeroBefore(second, j) || ZeroRest(second, j))
  {
    LateIsFirst(second, j);
    TightAt(second, j);
    WastedAt(second, j);
    if ReachTo(second, j) <= second[0].span.s {
      BeforeIsZero(second, j);
    } else {
      AllRestZero(second, j);
    }
  }

  lemma TightIsHarmless(second: seq<Flagged>)
    requires Sound(second) && AllTight(second)
    ensures Harmless(second)
  {
    forall j | 0 < j < |second| && Late(second, j)
      ensures second[j].span.s == second[0].span.s && (ZeroBefore(second, j) || ZeroRest(second, j))
    {
      LateIsHarmless(second, j);
    }
  }

  /**
   Whatever order of ties the second window takes, the figure is never below the measure of
   the union, and it is that measure if and only if the order is harmless.
   */
  lemma TieOrders(rows: seq<Span>, second: seq<Flagged>)
    requires Ordered(rows) && multiset(second) == multiset(Flags(rows)) && ByStart(second)
    ensures Figure(second) >= |Cover(rows)|
    ensures Figure(second) == |Cover(rows)| <==> Harmless(second)
  {
    PermutedSound(rows, second);
    SameUnion(rows, second);
    WasteIs(second);
    if Harmless(second) {
      HarmlessIsTight(second);
    }
    if AllTight(second) {
      TightIsHarmless(second);
    }
  }

  lemma OrderedThree(x: Span, y: Span, z: Span)
    requires x.s <= x.e && x.s <= y.s <= y.e && y.s <= z.s <= z.e
    ensures Ordered([x, y, z])
  {
    assert Front([x]) == [] && Ordered([x]);
    assert Front([x, y]) == [x] && Ordered([x, y]);
    assert Front([x, y, z]) == [x, y];
  }

  lemma SpansOfThree(x: Flagged, y: Flagged, z: Flagged)
    ensures SpansOf([x, y, z]) == [x.span, y.span, z.span]
  {
  }

  lemma FlagsOfThree(p: Span, a: Span, b: Span)
    requires p.e < a.s && b.s <= a.e && p.e <= a.e
    ensures Flags([p, a, b]) == [Flagged(p, true), Flagged(a, true), Flagged(b, false)]
  {
    var rows := [p, a, b];
    assert rows[..1] == [p] && rows[..2] == [p, a] && Front([p, a]) == [p];
    assert Reach([p]) == p.e && Reach([p, a]) == a.e;
    FlagAt(rows, 0);
    FlagAt(rows, 1);
    FlagAt(rows, 2);
  }

  /** Two requests that start together after a pause, read in the other order. */
  lemma HarmfulOrder() returns (rows: seq<Span>, second: seq<Flagged>)
    ensures Ordered(rows) && multiset(second) == multiset(Flags(rows)) && ByStart(second)
    ensures Figure(second) > |Cover(rows)|
  {
    var p, a, b := Span(0, 5), Span(10, 15), Span(10, 13);
    var fp, fa, fb := Flagged(p, true), Flagged(a, true), Flagged(b, false);
    rows, second := [p, a, b], [fp, fb, fa];
    OrderedThree(p, a, b);
    OrderedThree(p, b, a);
    SpansOfThree(fp, fb, fa);
    FlagsOfThree(p, a, b);
    assert Late(second, 2);
    TieOrders(rows, second);
  }
}
