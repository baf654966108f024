/** In which order a sweep works its plan off, and what its CSV holds afterwards. */
module SweepOrder {
  import opened Options
  import opened Worklist
  import opened Sweeps

  // ----- the plan, place by place -----

  lemma {:induction false} RepsAt(v: string, reps: nat, r: nat)
    requires r < reps
    ensures |RepsOf(v, reps)| == reps && RepsOf(v, reps)[r] == (v, r + 1)
  {
    RepsSize(v, reps - 1);
    if r < reps - 1 {
      RepsAt(v, reps - 1, r);
    }
  }

  lemma {:induction false} RepsSize(v: string, reps: nat)
    ensures |RepsOf(v, reps)| == reps
  {
    if reps > 0 {
      RepsSize(v, reps - 1);
    }
  }

  lemma Row(i: nat, n: nat)
    requires i > 0
    ensures i * n == (i - 1) * n + n
  {
  }

  lemma {:induction false} ValueMajorSize(values: seq<string>, reps: nat)
    ensures |ValueMajor(values, reps)| == |values| * reps
  {
    if values != [] {
      RepsSize(values[0], reps);
      ValueMajorSize(values[1..], reps);
      Row(|values|, reps);
    }
  }

  lemma Within(i: nat, n: nat, r: nat, reps: nat)
    requires i < n && r < reps
    ensures i * reps + r < n * reps
  {
    assert (i + 1) * reps <= n * reps;
  }

  lemma BehindReps(first: seq<(string, nat)>, rest: seq<(string, nat)>, reps: nat, i: nat, r: nat)
    requires |first| == reps && i > 0 && (i - 1) * reps + r < |rest|
    ensures i * reps + r < |first + rest| && (first + rest)[i * reps + r] == rest[(i - 1) * reps + r]
  {
    Row(i, reps);
  }

  lemma {:induction false} ValueMajorAt(values: seq<string>, reps: nat, i: nat, r: nat)
    requires i < |values| && r < reps
    ensures i * reps + r < |ValueMajor(values, reps)| && ValueMajor(values, reps)[i * reps + r] == (values[i], r + 1)
  {
    RepsSize(values[0], reps);
    if i == 0 {
      RepsAt(values[0], reps, r);
    } else {
      ValueMajorAt(values[1..], reps, i - 1, r);
      BehindReps(RepsOf(values[0], reps), ValueMajor(values[1..], reps), reps, i, r);
    }
  }

  lemma {:induction false} PassAt(values: seq<string>, rep: nat, i: nat)
    requires i < |values|
    ensures |Pass(values, rep)| == |values| && Pass(values, rep)[i] == (values[i], rep)
  {
    PassSize(values, rep);
    if i > 0 {
      PassAt(values[1..], rep, i - 1);
    }
  }

  lemma {:induction false} PassSize(values: seq<string>, rep: nat)
    ensures |Pass(values, rep)| == |values|
  {
    if values != [] {
      PassSize(values[1..], rep);
    }
  }

  lemma {:induction false} RepMajorSize(values: seq<string>, reps: nat)
    ensures |RepMajor(values, reps)| == reps * |values|
  {
    if reps > 0 {
      RepMajorSize(values, reps - 1);
      PassSize(values, reps);
      Row(reps, |values|);
    }
  }

  lemma {:induction false} RepMajorAt(values: seq<string>, reps: nat, r: nat, i: nat)
    requires i < |values| && r < reps
    ensures r * |values| + i < |RepMajor(values, reps)|
    ensures RepMajor(values, reps)[r * |values| + i] == (values[i], r + 1)
  {
    RepMajorSize(values, reps);
    RepMajorSize(values, reps - 1);
    Within(r, reps, i, |values|);
    if r == reps - 1 {
      PassAt(values, reps, i);
    } else {
      Within(r, reps - 1, i, |values|);
      RepMajorAt(values, reps - 1, r, i);
    }
  }

  /** Interleaved, the plan goes through all values for each rep, otherwise through all reps for each value. */
  lemma PlanAt(call: Call, i: nat, r: nat)
    requires i < |call.values| && r < call.reps
    ensures |Plan(call)| == |call.values| * call.reps
    ensures call.interleave ==> 0 <= r * |call.values| + i < |Plan(call)|
    ensures call.interleave ==> Plan(call)[r * |call.values| + i] == (call.values[i], r + 1)
    ensures !call.interleave ==> 0 <= i * call.reps + r < |Plan(call)|
    ensures !call.interleave ==> Plan(call)[i * call.reps + r] == (call.values[i], r + 1)
  {
    if call.interleave {
      RepMajorSize(call.values, call.reps);
      RepMajorAt(call.values, call.reps, r, i);
    } else {
      ValueMajorSize(call.values, call.reps);
      ValueMajorAt(call.values, call.reps, i, r);
    }
  }

  lemma PlanSize(call: Call)
    ensures |Plan(call)| == |call.values| * call.reps
  {
    RepMajorSize(call.values, call.reps);
    ValueMajorSize(call.values, call.reps);
  }

  // ----- the order of the runs -----

  predicate Rising(pos: seq<nat>, n: nat) {
    && (forall j :: 0 <= j < |pos| ==> pos[j] < n)
    && forall j, k :: 0 <= j < k < |pos| ==> pos[j] < pos[k]
  }

  /** The `j`-th of the runs started is the one planned at `pos[j]`. */
  predicate AtPlaces(call: Call, plan: seq<(string, nat)>, ran: seq<Executed>, pos: seq<nat>) {
    && |ran| == |pos| && Rising(pos, |plan|)
    && forall j :: 0 <= j < |pos| ==>
         ran[j].key.axis == call.axis && ran[j].key.value == plan[pos[j]].0 && ran[j].key.rep == plan[pos[j]].1
  }

  lemma PlacesBehind(call: Call, plan: seq<(string, nat)>, ran: seq<Executed>, rest: seq<nat>, pos: seq<nat>)
    requires plan != [] && AtPlaces(call, plan[1..], ran, rest)
    requires pos == seq(|rest|, j requires 0 <= j < |rest| => rest[j] + 1)
    ensures AtPlaces(call, plan, ran, pos)
  {
    forall j | 0 <= j < |pos|
      ensures
        && ran[j].key.axis == call.axis && ran[j].key.value == plan[pos[j]].0 && ran[j].key.rep == plan[pos[j]].1
    {
      assert plan[1..][rest[j]] == plan[pos[j]];
    }
  }

  lemma PlaceAhead(call: Call, plan: seq<(string, nat)>, e: Executed, later: seq<Executed>, pos: seq<nat>)
    requires plan != [] && AtPlaces(call, plan, later, pos) && forall j :: 0 <= j < |pos| ==> pos[j] > 0
    requires e.key.axis == call.axis && e.key.value == plan[0].0 && e.key.rep == plan[0].1
    ensures AtPlaces(call, plan, [e] + later, [0] + pos)
  {
  }

  lemma OnePlaceMore(call: Call, plan: seq<(string, nat)>, first: seq<Executed>, later: seq<Executed>, rest: seq<nat>)
    returns (pos: seq<nat>)
    requires plan != [] && AtPlaces(call, plan[1..], later, rest)
    requires |first| <= 1
    requires first != [] ==>
      first[0].key.axis == call.axis && first[0].key.value == plan[0].0 && first[0].key.rep == plan[0].1
    ensures AtPlaces(call, plan, first + later, pos)
  {
    pos := seq(|rest|, j requires 0 <= j < |rest| => rest[j] + 1);
    PlacesBehind(call, plan, later, rest, pos);
    if first != [] {
      PlaceAhead(call, plan, first[0], later, pos);
      assert [first[0]] + later == first + later;
      pos := [0] + pos;
    } else {
      assert first + later == later;
    }
  }

  /** A visit starts its entry's run, or none. */
  lemma VisitStarts(s: Session, call: Call, entry: (string, nat), bench: Bench, s1: Session)
    requires s1 == Visit(s, call, entry, bench)
    ensures s.ran <= s1.ran && |s1.ran| <= |s.ran| + 1
    ensures s1.ran[|s.ran|..] != [] ==>
      var e := s1.ran[|s.ran|..][0];
      e.key.axis == call.axis && e.key.value == entry.0 && e.key.rep == entry.1
  {
  }

  lemma Behind<T>(a: seq<T>, b: seq<T>, c: seq<T>)
    requires a <= b <= c
    ensures c[|a|..] == b[|a|..] + c[|b|..]
  {
  }

  /** A sweep starts its runs in the order of its plan. */
  lemma {:induction false} SweptPlaces(s: Session, call: Call, plan: seq<(string, nat)>, bench: Bench)
    returns (pos: seq<nat>)
    ensures s.ran <= Swept(s, call, plan, bench).ran
    ensures AtPlaces(call, plan, Swept(s, call, plan, bench).ran[|s.ran|..], pos)
    decreases |plan|
  {
    if plan == [] {
      pos := [];
    } else {
      var s1 := Visit(s, call, plan[0], bench);
      var rest := SweptPlaces(s1, call, plan[1..], bench);
      var ran := Swept(s1, call, plan[1..], bench).ran;
      VisitStarts(s, call, plan[0], bench, s1);
      Behind(s.ran, s1.ran, ran);
      pos := OnePlaceMore(call, plan, s1.ran[|s.ran|..], ran[|s1.ran|..], rest);
    }
  }

  lemma Grows(a: nat, b: nat, n: nat)
    ensures a < b ==> (a + 1) * n <= b * n
    ensures a <= b ==> a * n <= b * n
  {
  }

  lemma RowAndColumn(p: nat, n: nat, m: nat) returns (q: nat, r: nat)
    requires p < m * n
    ensures q < m && r < n && p == q * n + r
  {
    q, r := p / n, p % n;
    Grows(m, q, n);
  }

  lemma EarlierRow(q: nat, r: nat, q': nat, r': nat, n: nat)
    requires r < n && r' < n && q * n + r < q' * n + r'
    ensures q < q' || (q == q' && r < r')
  {
    Grows(q', q, n);
  }

  /** The value of this index, and this rep. */
  predicate IsEntry(call: Call, e: Executed, i: nat, r: nat) {
    i < |call.values| && r < call.reps && e.key.axis == call.axis && e.key.value == call.values[i] && e.key.rep == r + 1
  }

  lemma PlaceOf(call: Call, size: nat, p: nat) returns (i: nat, r: nat)
    requires p < size && size == |call.values| * call.reps
    ensures i < |call.values| && r < call.reps
    ensures p == if call.interleave then r * |call.values| + i else i * call.reps + r
  {
    if call.interleave {
      r, i := RowAndColumn(p, |call.values|, call.reps);
    } else {
      i, r := RowAndColumn(p, call.reps, |call.values|);
    }
  }

  lemma EntryAt(call: Call, e: Executed, p: nat) returns (i: nat, r: nat)
    requires p < |Plan(call)| && e.key.axis == call.axis
    requires e.key.value == Plan(call)[p].0 && e.key.rep == Plan(call)[p].1
    ensures IsEntry(call, e, i, r)
    ensures p == if call.interleave then r * |call.values| + i else i * call.reps + r
  {
    PlanSize(call);
    i, r := PlaceOf(call, |Plan(call)|, p);
    PlanAt(call, i, r);
  }

  lemma RunEntry(s: Session, call: Call, bench: Bench, j: nat) returns (i: nat, r: nat)
    requires |s.ran| <= j < |Swept(s, call, Plan(call), bench).ran|
    ensures IsEntry(call, Swept(s, call, Plan(call), bench).ran[j], i, r)
  {
    var ran := Swept(s, call, Plan(call), bench).ran;
    var pos := SweptPlaces(s, call, Plan(call), bench);
    assert ran[|s.ran|..][j - |s.ran|] == ran[j];
    i, r := EntryAt(call, ran[j], pos[j - |s.ran|]);
  }

  /**
   Of two runs that a sweep starts, the one of the lower rep comes first when it is interleaved,
   and of equal reps the one of the earlier value; otherwise the one of the earlier value, and
   of equal values the one of the lower rep.
   */
  lemma RunsInOrder(s: Session, call: Call, bench: Bench, j: nat, k: nat)
    returns (i: nat, r: nat, i': nat, r': nat)
    requires
      var ran := Swept(s, call, Plan(call), bench).ran;
      |s.ran| <= j < k < |ran|
    ensures
      var ran := Swept(s, call, Plan(call), bench).ran;
      && IsEntry(call, ran[j], i, r) && IsEntry(call, ran[k], i', r')
      && (call.interleave ==> r < r' || (r == r' && i < i'))
      && (!call.interleave ==> i < i' || (i == i' && r < r'))
  {
    var ran := Swept(s, call, Plan(call), bench).ran;
    var pos := SweptPlaces(s, call, Plan(call), bench);
    var fresh' := ran[|s.ran|..];
    var a, b := j - |s.ran|, k - |s.ran|;
    assert fresh'[a] == ran[j] && fresh'[b] == ran[k] && pos[a] < pos[b];
    i, r := EntryAt(call, ran[j], pos[a]);
    i', r' := EntryAt(call, ran[k], pos[b]);
    if call.interleave {
      EarlierRow(r, i, r', i', |call.values|);
    } else {
      EarlierRow(i, r, i', r', call.reps);
    }
  }

  // ----- the rows of the CSV -----

  /** A row as it is written: stamped with the run, with the knobs over what the run answered. */
  predicate WrittenFor(row: Row, key: Key, cfg: Cfg, own: Cfg) {
    && row.axis == key.axis && row.value == key.value && row.rep == key.rep
    && row.cols.Keys == own.Keys + cfg.Keys
    && forall k :: k in row.cols ==>
         row.cols[k] == if k in cfg && !(k == QUERY && k in own) then cfg[k] else own[k]
  }

  /** The rows and columns behind appending `rows` for one run. */
  predicate Appended(csv: Csv, key: Key, cfg: Cfg, rows: seq<Cfg>, csv': Csv) {
    && |csv'.rows| == |csv.rows| + |rows| && csv.rows <= csv'.rows
    && (forall i :: 0 <= i < |rows| ==> WrittenFor(csv'.rows[|csv.rows| + i], key, cfg, rows[i]))
    && csv'.columns == csv.columns + ColumnsOf(cfg, rows)
  }

  function ColumnsOf(cfg: Cfg, rows: seq<Cfg>): set<string> { set row <- rows, k <- row.Keys + cfg.Keys :: k }

  lemma AppendedMore(csv: Csv, key: Key, cfg: Cfg, rows: seq<Cfg>, r: Row, csv1: Csv, csv': Csv)
    requires rows != [] && WrittenFor(r, key, cfg, rows[0])
    requires csv1 == Csv(csv.columns + r.cols.Keys, csv.rows + [r]) && Appended(csv1, key, cfg, rows[1..], csv')
    ensures Appended(csv, key, cfg, rows, csv')
  {
    forall i | 0 <= i < |rows| ensures WrittenFor(csv'.rows[|csv.rows| + i], key, cfg, rows[i]) {
      if i > 0 {
        assert WrittenFor(csv'.rows[|csv1.rows| + (i - 1)], key, cfg, rows[1..][i - 1]);
      } else {
        assert csv'.rows[|csv.rows|] == csv1.rows[|csv.rows|] == r;
      }
    }
    MoreColumns(cfg, rows);
  }

  lemma MoreColumns(cfg: Cfg, rows: seq<Cfg>)
    requires rows != []
    ensures ColumnsOf(cfg, rows) == rows[0].Keys + cfg.Keys + ColumnsOf(cfg, rows[1..])
  {
    assert forall row :: row in rows <==> row == rows[0] || row in rows[1..];
    assert rows[0] in rows;
  }

  lemma {:induction false} AppendRows(csv: Csv, key: Key, cfg: Cfg, rows: seq<Cfg>)
    ensures Appended(csv, key, cfg, rows, Append(csv, key, cfg, rows))
    decreases |rows|
  {
    if rows != [] {
      var r := Stamped(key, cfg, rows[0]);
      var csv1 := Csv(csv.columns + r.cols.Keys, csv.rows + [r]);
      StampedIs(key, cfg, rows[0]);
      AppendRows(csv1, key, cfg, rows[1..]);
      AppendedMore(csv, key, cfg, rows, r, csv1, Append(csv1, key, cfg, rows[1..]));
    }
  }

  lemma StampedIs(key: Key, cfg: Cfg, own: Cfg)
    ensures WrittenFor(Stamped(key, cfg, own), key, cfg, own)
  {
  }

  /** From a run's start row on, the CSV holds one row for each answer of the run. */
  predicate HoldsRun(rows: seq<Row>, at: nat, e: Executed, answers: seq<Cfg>) {
    at + |answers| <= |rows| && forall i :: 0 <= i < |answers| ==> WrittenFor(rows[at + i], e.key, e.cfg, answers[i])
  }

  ghost predicate HoldsRuns(rows: seq<Row>, at: nat, ran: seq<Executed>, n: nat, bench: Bench)
    decreases |ran|
  {
    if ran == [] then at == |rows|
    else
      && HoldsRun(rows, at, ran[0], bench(n, ran[0].cfg))
      && HoldsRuns(rows, at + |bench(n, ran[0].cfg)|, ran[1..], n + 1, bench)
  }

  /** One visit: nothing, or one run and its answers behind the old rows. */
  predicate VisitHolds(s: Session, s1: Session, bench: Bench) {
    || s1 == s
    || (&& |s1.ran| == |s.ran| + 1 && s1.ran[..|s.ran|] == s.ran
        && |s1.df.rows| == |s.df.rows| + |bench(|s.ran|, s1.ran[|s.ran|].cfg)| && s1.df.rows[..|s.df.rows|] == s.df.rows
        && HoldsRun(s1.df.rows, |s.df.rows|, s1.ran[|s.ran|], bench(|s.ran|, s1.ran[|s.ran|].cfg)))
  }

  lemma OneVisit(s: Session, call: Call, entry: (string, nat), bench: Bench)
    ensures VisitHolds(s, Visit(s, call, entry, bench), bench)
  {
    var key, cfg := call.KeyAt(entry.0, entry.1), call.CfgAt(entry.0);
    AppendRows(s.df, key, cfg, bench(|s.ran|, cfg));
  }

  lemma HeldLater(rows: seq<Row>, rows': seq<Row>, at: nat, e: Executed, answers: seq<Cfg>)
    requires HoldsRun(rows, at, e, answers) && rows <= rows'
    ensures HoldsRun(rows', at, e, answers)
  {
  }

  /** Behind one more run the rest go on where its answers end. */
  lemma OneRunMore(s: Session, s1: Session, s': Session, bench: Bench)
    requires VisitHolds(s, s1, bench) && s1.ran <= s'.ran && s1.df.rows <= s'.df.rows
    requires HoldsRuns(s'.df.rows, |s1.df.rows|, s'.ran[|s1.ran|..], |s1.ran|, bench)
    ensures s.ran <= s'.ran && s.df.rows <= s'.df.rows
    ensures HoldsRuns(s'.df.rows, |s.df.rows|, s'.ran[|s.ran|..], |s.ran|, bench)
  {
    if s1 != s {
      var e, new' := s1.ran[|s.ran|], s'.ran[|s.ran|..];
      HeldLater(s1.df.rows, s'.df.rows, |s.df.rows|, e, bench(|s.ran|, e.cfg));
      assert new'[0] == e && new'[1..] == s'.ran[|s1.ran|..];
    }
  }

  /**
   After a sweep the CSV is what it was, followed by the answers of the runs that were started, in
   that order, each stamped with its run: no other row, and no change to an older one.
   */
  lemma {:induction false} CsvIsRuns(s: Session, call: Call, plan: seq<(string, nat)>, bench: Bench)
    ensures
      var s' := Swept(s, call, plan, bench);
      && s.ran <= s'.ran && s.df.rows <= s'.df.rows
      && HoldsRuns(s'.df.rows, |s.df.rows|, s'.ran[|s.ran|..], |s.ran|, bench)
    decreases |plan|
  {
    if plan != [] {
      var s1 := Visit(s, call, plan[0], bench);
      CsvIsRuns(s1, call, plan[1..], bench);
      OneVisit(s, call, plan[0], bench);
      OneRunMore(s, s1, Swept(s1, call, plan[1..], bench), bench);
    }
  }
}
