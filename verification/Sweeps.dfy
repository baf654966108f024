/**
 The resumable sweep driver: a plan of (axis value, rep) pairs is worked off against a CSV
 that says which runs exist already; every new run is built, executed and appended.
 */
module Sweeps {
  import opened Options
  import opened Worklist

  const INSTANCE := "instance"
  const QUERY := "query"

  /** A knob assignment; all values as the strings the CSV comparison uses. */
  type Cfg = map<string, string>

  /** One line of the CSV: what the driver stamps on it, and the knob columns. */
  datatype Row = Row(axis: string, value: string, rep: nat, cols: Cfg)

  datatype Csv = Csv(columns: set<string>, rows: seq<Row>) {
    predicate Valid() { forall r <- rows :: r.cols.Keys <= columns }
  }

  /** What identifies a run: the point on the axis, the rep, and every other knob. */
  datatype Key = Key(axis: string, value: string, rep: nat, off: Cfg)

  /** A column the row has no value for reads as the empty string. */
  function Field(r: Row, k: string): string {
    if k in r.cols then r.cols[k] else ""
  }

  predicate Hit(csv: Csv, r: Row, key: Key) {
    && r.axis == key.axis && r.value == key.value && r.rep == key.rep
    && forall k <- key.off.Keys :: k in csv.columns ==> Field(r, k) == key.off[k]
  }

  /** Whether the CSV already holds this run: knobs it has no column for are not compared. */
  predicate Done(csv: Csv, key: Key) {
    exists r <- csv.rows :: Hit(csv, r, key)
  }

  /** A run answers with one row or several; a row may name its own query. */
  type Rows = r: seq<Cfg> | |r| > 0 witness [map[]]

  /** What the n-th run answers when it is asked for a knob assignment. */
  type Bench = (nat, Cfg) -> Rows

  function Stamped(key: Key, cfg: Cfg, own: Cfg): Row {
    Row(key.axis, key.value, key.rep, own + if QUERY in own then cfg - {QUERY} else cfg)
  }

  function Append(csv: Csv, key: Key, cfg: Cfg, rows: seq<Cfg>): Csv
    decreases |rows|
  {
    if rows == [] then csv
    else
      var r := Stamped(key, cfg, rows[0]);
      Append(Csv(csv.columns + r.cols.Keys, csv.rows + [r]), key, cfg, rows[1..])
  }

  // ----- one driver call -----

  datatype Call = Call(axis: string, base: Cfg, values: seq<string>, reps: nat, interleave: bool, instance: string) {
    /** Sweeping instances leaves the image alone; every other axis is a knob of it. */
    function CfgAt(value: string): Cfg { if axis == INSTANCE then base else base[axis := value] }

    function KeyAt(value: string, rep: nat): Key { Key(axis, value, rep, base - {axis}) }

    /** The machine type: the axis value when instances are swept. */
    function InstanceAt(value: string): string { if axis == INSTANCE then value else instance }
  }

  function RepsOf(value: string, reps: nat): seq<(string, nat)> {
    if reps == 0 then [] else RepsOf(value, reps - 1) + [(value, reps)]
  }

  function ValueMajor(values: seq<string>, reps: nat): seq<(string, nat)> {
    if values == [] then [] else RepsOf(values[0], reps) + ValueMajor(values[1..], reps)
  }

  function Pass(values: seq<string>, rep: nat): seq<(string, nat)> {
    if values == [] then [] else [(values[0], rep)] + Pass(values[1..], rep)
  }

  function RepMajor(values: seq<string>, reps: nat): seq<(string, nat)> {
    if reps == 0 then [] else RepMajor(values, reps - 1) + Pass(values, reps)
  }

  function Plan(call: Call): seq<(string, nat)> {
    if call.interleave then RepMajor(call.values, call.reps) else ValueMajor(call.values, call.reps)
  }

  /** What the build tree on disk holds: an image that is being built, or one for these knobs. */
  datatype Tree = Half | Whole(cfg: Cfg)

  /** A run that was started, with the tree it read its image from. */
  datatype Executed = Executed(key: Key, cfg: Cfg, image: Tree, instance: string)

  /**
   The CSV and the build tree, what the process remembers having built last, every run that
   was started and every build made.
   */
  datatype Session = Session(df: Csv, tree: Tree, built: Option<Cfg>, ran: seq<Executed>, builds: seq<Cfg>)

  /** The loop body for one plan entry; the bench answers a run by its number and its knobs. */
  function Visit(s: Session, call: Call, entry: (string, nat), bench: Bench): Session {
    var key, cfg := call.KeyAt(entry.0, entry.1), call.CfgAt(entry.0);
    if s.df.rows != [] && Done(s.df, key) then s
    else
      var builds := if s.built == Some(cfg) then s.builds else s.builds + [cfg];
      var tree := if s.built == Some(cfg) then s.tree else Whole(cfg);
      Session(Append(s.df, key, cfg, bench(|s.ran|, cfg)), tree, Some(cfg),
              s.ran + [Executed(key, cfg, tree, call.InstanceAt(entry.0))], builds)
  }

  function Swept(s: Session, call: Call, plan: seq<(string, nat)>, bench: Bench): Session
    decreases |plan|
  {
    if plan == [] then s else Swept(Visit(s, call, plan[0], bench), call, plan[1..], bench)
  }

  class Driver {
    var df: Csv
    var tree: Tree
    var built: Option<Cfg>
    var ran: seq<Executed>
    var builds: seq<Cfg>

    function State(): Session
      reads this
    {
      Session(df, tree, built, ran, builds)
    }

    /** A driver process finds the CSV and the tree as they are, and remembers no build. */
    constructor (s: Session)
      ensures State() == s.(built := None)
    {
      df, tree, built, ran, builds := s.df, s.tree, None, s.ran, s.builds;
    }

    method Build(cfg: Cfg)
      modifies this`tree, this`builds
      ensures tree == Whole(cfg) && builds == old(builds) + [cfg]
    {
      tree := Half;
      builds := builds + [cfg];
      tree := Whole(cfg);
    }

    /** A run reads its image from the tree, whatever that holds. */
    method RunOnce(key: Key, cfg: Cfg, instance: string, bench: Bench) returns (rows: Rows)
      modifies this`ran
      ensures rows == bench(|old(ran)|, cfg) && ran == old(ran) + [Executed(key, cfg, tree, instance)]
    {
      rows := bench(|ran|, cfg);
      ran := ran + [Executed(key, cfg, tree, instance)];
    }

    method Sweep(call: Call, bench: Bench)
      modifies this
      ensures State() == Swept(old(State()), call, Plan(call), bench)
    {
      var plan := Plan(call);
      for idx := 0 to |plan|
        invariant Swept(State(), call, plan[idx..], bench) == Swept(old(State()), call, plan, bench)
      {
        var key, cfg := call.KeyAt(plan[idx].0, plan[idx].1), call.CfgAt(plan[idx].0);
        ghost var before := State();
        assert plan[idx..][1..] == plan[idx + 1..];
        if df.rows == [] || !Done(df, key) {
          if built != Some(cfg) {
            Build(cfg);
            built := Some(cfg);
          }
          var rows := RunOnce(key, cfg, call.InstanceAt(plan[idx].0), bench);
          df := Append(df, key, cfg, rows);
        }
        assert State() == Visit(before, call, plan[idx], bench);
      }
    }
  }

  // ----- what counts as done -----

  /** Every knob the CSV has no column for is empty in this run. */
  predicate UnseenEmpty(csv: Csv, key: Key) {
    forall k <- key.off.Keys :: k !in csv.columns ==> key.off[k] == ""
  }

  /**
   A new column undoes no run: above all where every off-axis knob has its column, and where
   there are no rows yet.
   */
  ghost predicate Ready(csv: Csv, knobs: set<string>) {
    csv.Valid() && forall key: Key :: key.off.Keys == knobs && Done(csv, key) ==> UnseenEmpty(csv, key)
  }

  lemma WithColumnsReady(csv: Csv, knobs: set<string>)
    requires csv.Valid() && (csv.rows == [] || knobs <= csv.columns)
    ensures Ready(csv, knobs)
  {
  }

  ghost function DoneSet(csv: Csv, knobs: set<string>): iset<Key> {
    iset key: Key | key.off.Keys == knobs && Done(csv, key)
  }

  /** The run's rows keep the off-axis query they were asked for. */
  predicate KeepsQuery(rows: seq<Cfg>, off: Cfg) {
    QUERY in off ==> forall own <- rows :: QUERY in own ==> own[QUERY] == off[QUERY]
  }

  /** `cfg` is `off`, with the axis added unless that is the instance. */
  predicate Extends(cfg: Cfg, axis: string, off: Cfg) {
    off == cfg - {axis}
  }

  lemma StampedHits(csv: Csv, key: Key, cfg: Cfg, own: Cfg, other: Key)
    requires Extends(cfg, key.axis, key.off) && KeepsQuery([own], key.off)
    requires other.off.Keys == key.off.Keys
    ensures key.off.Keys <= Stamped(key, cfg, own).cols.Keys
    ensures key.off.Keys <= csv.columns ==> (Hit(csv, Stamped(key, cfg, own), other) <==> other == key)
  {
    var r := Stamped(key, cfg, own);
    assert own in [own];
    forall k | k in key.off ensures k in r.cols && r.cols[k] == key.off[k] {
    }
    if key.off.Keys <= csv.columns && Hit(csv, r, other) {
      assert forall k <- key.off.Keys :: other.off[k] == Field(r, k) == key.off[k];
      assert other.off == key.off;
    }
  }

  /** The runs that stay done when a row of another run brings the missing columns. */
  ghost function Lasting(csv: Csv, knobs: set<string>): iset<Key> {
    iset key: Key | key in DoneSet(csv, knobs) && UnseenEmpty(csv, key)
  }

  /** A run's first row makes it done, and keeps of the others those that last. */
  lemma AppendFirst(csv: Csv, key: Key, cfg: Cfg, own: Cfg)
    requires Extends(cfg, key.axis, key.off) && KeepsQuery([own], key.off) && csv.Valid()
    ensures
      var r := Stamped(key, cfg, own);
      var csv' := Csv(csv.columns + r.cols.Keys, csv.rows + [r]);
      && Ready(csv', key.off.Keys) && csv'.rows != []
      && DoneSet(csv', key.off.Keys) == Lasting(csv, key.off.Keys) + iset{key}
  {
    var r, knobs := Stamped(key, cfg, own), key.off.Keys;
    var csv' := Csv(csv.columns + r.cols.Keys, csv.rows + [r]);
    StampedHits(csv', key, cfg, own, key);
    assert csv'.Valid() && knobs <= csv'.columns;
    assert r in csv'.rows;
    forall other: Key | other.off.Keys == knobs && other != key
      ensures Done(csv', other) <==> Done(csv, other) && UnseenEmpty(csv, other)
    {
      StampedHits(csv', key, cfg, own, other);
      OldRows(csv, r, other);
    }
  }

  /** A row that brings columns: an older row matches as before unless a new knob is not empty. */
  lemma OldRows(csv: Csv, r: Row, other: Key)
    requires csv.Valid()
    ensures
      var csv' := Csv(csv.columns + r.cols.Keys, csv.rows + [r]);
      other.off.Keys <= csv'.columns && !Hit(csv', r, other) ==>
        (Done(csv', other) <==> Done(csv, other) && UnseenEmpty(csv, other))
  {
    var csv' := Csv(csv.columns + r.cols.Keys, csv.rows + [r]);
    if other.off.Keys <= csv'.columns && !Hit(csv', r, other) {
      forall x | x in csv.rows ensures Hit(csv', x, other) <==> Hit(csv, x, other) && UnseenEmpty(csv, other) {
        OldRow(csv, csv', x, other);
      }
      assert forall x :: x in csv'.rows <==> x in csv.rows || x == r;
    }
  }

  lemma OldRow(csv: Csv, csv': Csv, x: Row, other: Key)
    requires csv.Valid() && x in csv.rows && other.off.Keys <= csv'.columns && csv.columns <= csv'.columns
    ensures Hit(csv', x, other) <==> Hit(csv, x, other) && UnseenEmpty(csv, other)
  {
    assert x.cols.Keys <= csv.columns;
  }

  /** Where all done runs last, appending a row makes its run done and undoes nothing. */
  lemma AppendOne(csv: Csv, key: Key, cfg: Cfg, own: Cfg)
    requires Extends(cfg, key.axis, key.off) && KeepsQuery([own], key.off) && Ready(csv, key.off.Keys)
    ensures
      var r := Stamped(key, cfg, own);
      var csv' := Csv(csv.columns + r.cols.Keys, csv.rows + [r]);
      && Ready(csv', key.off.Keys) && csv'.rows != []
      && DoneSet(csv', key.off.Keys) == DoneSet(csv, key.off.Keys) + iset{key}
  {
    AppendFirst(csv, key, cfg, own);
    assert Lasting(csv, key.off.Keys) == DoneSet(csv, key.off.Keys);
  }

  /** All the rows of a run, on any CSV. */
  lemma AppendToAny(csv: Csv, key: Key, cfg: Cfg, rows: seq<Cfg>)
    requires rows != [] && Extends(cfg, key.axis, key.off) && KeepsQuery(rows, key.off) && csv.Valid()
    ensures
      var csv' := Append(csv, key, cfg, rows);
      && Ready(csv', key.off.Keys) && csv'.rows != []
      && DoneSet(csv', key.off.Keys) == Lasting(csv, key.off.Keys) + iset{key}
  {
    assert rows[0] in rows && forall own <- rows[1..] :: own in rows;
    AppendFirst(csv, key, cfg, rows[0]);
    var r := Stamped(key, cfg, rows[0]);
    var first := Csv(csv.columns + r.cols.Keys, csv.rows + [r]);
    if |rows| > 1 {
      AppendDone(first, key, cfg, rows[1..]);
    } else {
      assert Append(csv, key, cfg, rows) == first;
    }
  }

  lemma {:induction false} AppendDone(csv: Csv, key: Key, cfg: Cfg, rows: seq<Cfg>)
    requires rows != [] && Extends(cfg, key.axis, key.off) && KeepsQuery(rows, key.off) && Ready(csv, key.off.Keys)
    ensures
      var csv' := Append(csv, key, cfg, rows);
      && Ready(csv', key.off.Keys) && csv'.rows != []
      && DoneSet(csv', key.off.Keys) == DoneSet(csv, key.off.Keys) + iset{key}
    decreases |rows|
  {
    assert rows[0] in rows && forall own <- rows[1..] :: own in rows;
    AppendOne(csv, key, cfg, rows[0]);
    if |rows| > 1 {
      var r := Stamped(key, cfg, rows[0]);
      AppendDone(Csv(csv.columns + r.cols.Keys, csv.rows + [r]), key, cfg, rows[1..]);
    }
  }

  // ----- each missing run once, in plan order -----

  function KeysOf(call: Call, plan: seq<(string, nat)>): seq<Key> {
    if plan == [] then [] else [call.KeyAt(plan[0].0, plan[0].1)] + KeysOf(call, plan[1..])
  }

  lemma {:induction false} KeysOfConcat(call: Call, a: seq<(string, nat)>, b: seq<(string, nat)>)
    ensures KeysOf(call, a + b) == KeysOf(call, a) + KeysOf(call, b)
  {
    if a == [] {
      assert a + b == b;
    } else {
      assert (a + b)[1..] == a[1..] + b;
      KeysOfConcat(call, a[1..], b);
    }
  }

  lemma {:induction false} KeysOfReps(call: Call, v: string, reps: nat, key: Key)
    ensures key in KeysOf(call, RepsOf(v, reps)) <==> exists r: nat :: 1 <= r <= reps && key == call.KeyAt(v, r)
  {
    if reps > 0 {
      KeysOfReps(call, v, reps - 1, key);
      KeysOfConcat(call, RepsOf(v, reps - 1), [(v, reps)]);
      assert KeysOf(call, [(v, reps)]) == [call.KeyAt(v, reps)];
    }
  }

  lemma {:induction false} KeysOfValues(call: Call, values: seq<string>, reps: nat, key: Key)
    ensures key in KeysOf(call, ValueMajor(values, reps))
       <==> exists v <- values, r: nat :: 1 <= r <= reps && key == call.KeyAt(v, r)
  {
    if values != [] {
      var v, rest := values[0], values[1..];
      KeysOfConcat(call, RepsOf(v, reps), ValueMajor(rest, reps));
      KeysOfReps(call, v, reps, key);
      KeysOfValues(call, rest, reps, key);
      assert forall w :: w in values <==> w == v || w in rest;
    }
  }

  lemma {:induction false} SameKeys(a: Call, b: Call, plan: seq<(string, nat)>)
    requires a.axis == b.axis && a.base == b.base
    ensures KeysOf(a, plan) == KeysOf(b, plan)
  {
    if plan != [] {
      SameKeys(a, b, plan[1..]);
    }
  }

  function RanKeys(ran: seq<Executed>): seq<Key> {
    if ran == [] then [] else RanKeys(ran[..|ran| - 1]) + [ran[|ran| - 1].key]
  }

  lemma {:induction false} RanKeysSize(ran: seq<Executed>)
    ensures |RanKeys(ran)| == |ran|
  {
    if ran != [] {
      RanKeysSize(ran[..|ran| - 1]);
    }
  }

  /** The bench answers every run with rows that keep the query asked for off the axis. */
  ghost predicate Faithful(bench: Bench, axis: string) {
    forall n: nat, cfg: Cfg :: KeepsQuery(bench(n, cfg), cfg - {axis})
  }

  /** From `s` to `s'` exactly the missing runs of `keys` were executed, in order, and all are done. */
  ghost predicate WorkedOff(s: Session, s': Session, knobs: set<string>, keys: seq<Key>) {
    && Ready(s.df, knobs) && Ready(s'.df, knobs)
    && Advance(DoneSet(s.df, knobs), DoneSet(s'.df, knobs), RanKeys(s.ran), RanKeys(s'.ran), keys)
  }

  ghost predicate Advance(done: iset<Key>, done': iset<Key>, ran: seq<Key>, ran': seq<Key>, keys: seq<Key>) {
    done' == done + Members(keys) && ran' == ran + Missing(keys, done)
  }

  lemma AdvanceTwice(d0: iset<Key>, d1: iset<Key>, d2: iset<Key>, r0: seq<Key>, r1: seq<Key>, r2: seq<Key>,
                     a: seq<Key>, b: seq<Key>)
    requires Advance(d0, d1, r0, r1, a) && Advance(d1, d2, r1, r2, b)
    ensures Advance(d0, d2, r0, r2, a + b)
  {
    MissingTwice(a, b, d0, d1);
  }

  lemma WorkedOffTwice(s0: Session, s1: Session, s2: Session, knobs: set<string>, a: seq<Key>, b: seq<Key>)
    requires WorkedOff(s0, s1, knobs, a) && WorkedOff(s1, s2, knobs, b)
    ensures WorkedOff(s0, s2, knobs, a + b)
  {
    AdvanceTwice(DoneSet(s0.df, knobs), DoneSet(s1.df, knobs), DoneSet(s2.df, knobs),
                 RanKeys(s0.ran), RanKeys(s1.ran), RanKeys(s2.ran), a, b);
  }

  lemma VisitWorksOff(s: Session, call: Call, entry: (string, nat), bench: Bench)
    requires Ready(s.df, call.KeyAt("", 0).off.Keys) && Faithful(bench, call.axis)
    ensures WorkedOff(s, Visit(s, call, entry, bench), call.KeyAt("", 0).off.Keys,
                      [call.KeyAt(entry.0, entry.1)])
  {
    var key, s' := call.KeyAt(entry.0, entry.1), Visit(s, call, entry, bench);
    var knobs := key.off.Keys;
    var done := DoneSet(s.df, knobs);
    assert Members([key]) == iset{key};
    assert Missing([key][1..], done) == [] == Missing([key][1..], done + iset{key});
    if Done(s.df, key) {
      assert s.df.rows != [] && s' == s && done + iset{key} == done;
    } else {
      var cfg := call.CfgAt(entry.0);
      assert cfg - {call.axis} == key.off;
      assert KeepsQuery(bench(|s.ran|, cfg), cfg - {call.axis});
      AppendDone(s.df, key, cfg, bench(|s.ran|, cfg));
      assert s'.ran[..|s.ran|] == s.ran;
    }
  }

  /**
   The driver executes exactly the plan's missing runs, each once and in plan order, and
   leaves the plan's runs done in addition to those that were.
   */
  lemma {:induction false} SweepWorksOff(s: Session, call: Call, plan: seq<(string, nat)>, bench: Bench)
    requires Ready(s.df, call.KeyAt("", 0).off.Keys) && Faithful(bench, call.axis)
    ensures WorkedOff(s, Swept(s, call, plan, bench), call.KeyAt("", 0).off.Keys, KeysOf(call, plan))
    decreases |plan|
  {
    var knobs := call.KeyAt("", 0).off.Keys;
    if plan == [] {
      assert Members<Key>([]) == iset{};
    } else {
      var s1, key := Visit(s, call, plan[0], bench), call.KeyAt(plan[0].0, plan[0].1);
      VisitWorksOff(s, call, plan[0], bench);
      SweepWorksOff(s1, call, plan[1..], bench);
      WorkedOffTwice(s, s1, Swept(s1, call, plan[1..], bench), knobs, [key], KeysOf(call, plan[1..]));
    }
  }

  // ----- the image under a run -----

  /** The run read an image built for its own knobs, and its key says which those are. */
  predicate OnItsImage(call: Call, e: Executed) {
    && e.image == Whole(e.cfg) && e.cfg - {call.axis} == e.key.off
    && if call.axis == INSTANCE then e.instance == e.key.value
       else call.axis in e.cfg && e.cfg[call.axis] == e.key.value && e.instance == call.instance
  }

  // ----- from any CSV -----

  /**
   From `s` to `s'`, on a CSV of any columns: until a run is executed all done runs are
   skipped, from then on only those that last.
   */
  ghost predicate WorkedFrom(s: Session, s': Session, knobs: set<string>, keys: seq<Key>) {
    var done, kept := DoneSet(s.df, knobs), Lasting(s.df, knobs);
    var w := Worked(keys, done, kept);
    && s.df.Valid() && RanKeys(s'.ran) == RanKeys(s.ran) + w
    && if w == [] then s'.df == s.df
       else Ready(s'.df, knobs) && DoneSet(s'.df, knobs) == kept + Members(w)
  }

  /** The same on lists and sets of runs. */
  ghost predicate From(done: iset<Key>, kept: iset<Key>, done': iset<Key>, kept': iset<Key>,
                       ran: seq<Key>, ran': seq<Key>, keys: seq<Key>) {
    var w := Worked(keys, done, kept);
    ran' == ran + w && Left(w, done, kept, done', kept')
  }

  ghost predicate Left(w: seq<Key>, done: iset<Key>, kept: iset<Key>, done': iset<Key>, kept': iset<Key>) {
    if w == [] then done' == done && kept' == kept else done' == kept' == kept + Members(w)
  }

  lemma LeftTwice(w: seq<Key>, v: seq<Key>, d0: iset<Key>, k0: iset<Key>, d1: iset<Key>, k1: iset<Key>,
                  d2: iset<Key>, k2: iset<Key>)
    requires Left(w, d0, k0, d1, k1) && Left(v, d1, k1, d2, k2)
    ensures Left(w + v, d0, k0, d2, k2)
  {
    if w == [] {
      assert w + v == v;
    } else if v == [] {
      assert w + v == w;
    } else {
      assert Members(w + v) == Members(w) + Members(v);
    }
  }

  lemma WorkedTwice(a: seq<Key>, b: seq<Key>, d0: iset<Key>, k0: iset<Key>, d1: iset<Key>, k1: iset<Key>)
    requires Left(Worked(a, d0, k0), d0, k0, d1, k1)
    ensures Worked(a + b, d0, k0) == Worked(a, d0, k0) + Worked(b, d1, k1)
  {
    WorkedConcat(a, b, d0, k0);
    WorkedAllKept(b, d1);
  }

  lemma FromTwice(d0: iset<Key>, k0: iset<Key>, d1: iset<Key>, k1: iset<Key>, d2: iset<Key>, k2: iset<Key>,
                  r0: seq<Key>, r1: seq<Key>, r2: seq<Key>, a: seq<Key>, b: seq<Key>)
    requires From(d0, k0, d1, k1, r0, r1, a) && From(d1, k1, d2, k2, r1, r2, b)
    ensures From(d0, k0, d2, k2, r0, r2, a + b)
  {
    var w, v := Worked(a, d0, k0), Worked(b, d1, k1);
    WorkedTwice(a, b, d0, k0, d1, k1);
    LeftTwice(w, v, d0, k0, d1, k1, d2, k2);
    assert r0 + (w + v) == r0 + w + v;
  }

  /** A CSV that is not touched keeps what is done, one that is written is ready. */
  lemma FromOf(s: Session, s': Session, knobs: set<string>, keys: seq<Key>)
    requires s.df.Valid()
    requires WorkedFrom(s, s', knobs, keys)
    ensures From(DoneSet(s.df, knobs), Lasting(s.df, knobs), DoneSet(s'.df, knobs), Lasting(s'.df, knobs),
                 RanKeys(s.ran), RanKeys(s'.ran), keys)
  {
    if Worked(keys, DoneSet(s.df, knobs), Lasting(s.df, knobs)) != [] {
      assert Lasting(s'.df, knobs) == DoneSet(s'.df, knobs);
    }
  }

  lemma WorkedFromTwice(s0: Session, s1: Session, s2: Session, knobs: set<string>, a: seq<Key>, b: seq<Key>)
    requires WorkedFrom(s0, s1, knobs, a) && WorkedFrom(s1, s2, knobs, b)
    ensures WorkedFrom(s0, s2, knobs, a + b)
  {
    FromOf(s0, s1, knobs, a);
    FromOf(s1, s2, knobs, b);
    FromTwice(DoneSet(s0.df, knobs), Lasting(s0.df, knobs), DoneSet(s1.df, knobs), Lasting(s1.df, knobs),
              DoneSet(s2.df, knobs), Lasting(s2.df, knobs), RanKeys(s0.ran), RanKeys(s1.ran), RanKeys(s2.ran), a, b);
    WorkedConcat(a, b, DoneSet(s0.df, knobs), Lasting(s0.df, knobs));
  }

  lemma VisitFrom(s: Session, call: Call, entry: (string, nat), bench: Bench)
    requires s.df.Valid() && Faithful(bench, call.axis)
    ensures WorkedFrom(s, Visit(s, call, entry, bench), call.KeyAt("", 0).off.Keys,
                       [call.KeyAt(entry.0, entry.1)])
  {
    var key, s' := call.KeyAt(entry.0, entry.1), Visit(s, call, entry, bench);
    var done, kept := DoneSet(s.df, key.off.Keys), Lasting(s.df, key.off.Keys);
    assert [key][1..] == [] && Worked([key][1..], done, kept) == [] == Missing([key][1..], kept + iset{key});
    if !Done(s.df, key) {
      var cfg := call.CfgAt(entry.0);
      assert cfg - {call.axis} == key.off;
      assert KeepsQuery(bench(|s.ran|, cfg), cfg - {call.axis});
      AppendToAny(s.df, key, cfg, bench(|s.ran|, cfg));
      assert s'.ran[..|s.ran|] == s.ran;
      assert Members([key]) == iset{key};
    }
  }

  /** Two plans of the same runs after one another: the second executes none iff the first settled them. */
  lemma AgainFrom(s: Session, s': Session, s'': Session, knobs: set<string>, keys: seq<Key>, again: seq<Key>)
    requires WorkedFrom(s, s', knobs, keys) && WorkedFrom(s', s'', knobs, again)
    requires forall key :: key in again <==> key in keys
    ensures RanKeys(s''.ran) == RanKeys(s'.ran) <==> Settled(keys, DoneSet(s.df, knobs), Lasting(s.df, knobs))
  {
    AgainIff(keys, again, DoneSet(s.df, knobs), Lasting(s.df, knobs), DoneSet(s'.df, knobs), Lasting(s'.df, knobs));
    SamePrefix(RanKeys(s'.ran), Worked(again, DoneSet(s'.df, knobs), Lasting(s'.df, knobs)), []);
    assert RanKeys(s'.ran) + [] == RanKeys(s'.ran);
  }

  /** A sweep on any CSV executes what was missing, and what its first run undid. */
  lemma {:induction false} SweepFromAny(s: Session, call: Call, plan: seq<(string, nat)>, bench: Bench)
    requires s.df.Valid() && Faithful(bench, call.axis)
    ensures WorkedFrom(s, Swept(s, call, plan, bench), call.KeyAt("", 0).off.Keys, KeysOf(call, plan))
    ensures Swept(s, call, plan, bench).df.Valid()
    decreases |plan|
  {
    if plan != [] {
      var s1, key := Visit(s, call, plan[0], bench), call.KeyAt(plan[0].0, plan[0].1);
      VisitFrom(s, call, plan[0], bench);
      SweepFromAny(s1, call, plan[1..], bench);
      WorkedFromTwice(s, s1, Swept(s1, call, plan[1..], bench), call.KeyAt("", 0).off.Keys,
                      [key], KeysOf(call, plan[1..]));
    }
  }

  /**
   So a sweep executes exactly the missing runs if and only if behind the first of them it
   does not come to a done run with a knob that is not empty and has no column.
   */
  lemma SweepExactIff(s: Session, call: Call, plan: seq<(string, nat)>, bench: Bench)
    requires s.df.Valid() && Faithful(bench, call.axis)
    ensures
      var knobs, keys := call.KeyAt("", 0).off.Keys, KeysOf(call, plan);
      RanKeys(Swept(s, call, plan, bench).ran) == RanKeys(s.ran) + Missing(keys, DoneSet(s.df, knobs))
      <==> NoneUndone(keys, DoneSet(s.df, knobs), Lasting(s.df, knobs))
  {
    var knobs, keys := call.KeyAt("", 0).off.Keys, KeysOf(call, plan);
    SweepFromAny(s, call, plan, bench);
    WorkedIsMissing(keys, DoneSet(s.df, knobs), Lasting(s.df, knobs));
    SamePrefix(RanKeys(s.ran), Worked(keys, DoneSet(s.df, knobs), Lasting(s.df, knobs)),
        Missing(keys, DoneSet(s.df, knobs)));
  }

  lemma SamePrefix(a: seq<Key>, b: seq<Key>, c: seq<Key>)
    ensures a + b == a + c <==> b == c
  {
    assert (a + b)[|a|..] == b && (a + c)[|a|..] == c;
  }

  // ----- where the CSV forgets -----

  /**
   A run that is done stays done when another run of the same knobs is appended if and only
   if the knobs the CSV had no column for are empty: the first row that brings a new column
   makes all older rows differ in it.
   */
  lemma StaysDone(csv: Csv, key: Key, cfg: Cfg, own: Cfg, old': Key)
    requires csv.Valid() && Done(csv, old') && old'.off.Keys == key.off.Keys && old' != key
    requires Extends(cfg, key.axis, key.off) && KeepsQuery([own], key.off)
    ensures Done(Append(csv, key, cfg, [own]), old') <==> UnseenEmpty(csv, old')
  {
    var r := Stamped(key, cfg, own);
    var csv' := Csv(csv.columns + r.cols.Keys, csv.rows + [r]);
    assert Append(csv, key, cfg, [own]) == csv';
    StampedHits(csv', key, cfg, own, old');
    if UnseenEmpty(csv, old') {
      var x :| x in csv.rows && Hit(csv, x, old');
      assert x in csv'.rows && Hit(csv', x, old');
    }
    if Done(csv', old') {
      var x :| x in csv'.rows && Hit(csv', x, old');
      assert x in csv.rows && x.cols.Keys <= csv.columns;
    }
  }

  /**
   A recorded run is recognised afterwards if and only if one of its rows kept the query it
   was asked for: a multi-query boot off the axis answers with a row per query and is never
   done.
   */
  lemma RecognisedAfterwards(csv: Csv, key: Key, cfg: Cfg, rows: Rows)
    requires csv.Valid() && !Done(csv, key) && Extends(cfg, key.axis, key.off)
    ensures Done(Append(csv, key, cfg, rows), key)
       <==> QUERY !in key.off || exists own <- rows :: QUERY !in own || own[QUERY] == key.off[QUERY]
  {
    AppendFirstHit(csv, key, cfg, rows);
    forall own <- rows
      ensures KeepsQuery([own], key.off) <==> QUERY !in key.off || QUERY !in own || own[QUERY] == key.off[QUERY]
    {
      assert own in [own];
    }
    assert rows[0] in rows;
  }

  /** The first row brings all columns; what did not match before does not match with them. */
  lemma AppendFirstHit(csv: Csv, key: Key, cfg: Cfg, rows: Rows)
    requires csv.Valid() && !Done(csv, key) && Extends(cfg, key.axis, key.off)
    ensures Done(Append(csv, key, cfg, rows), key) <==> exists own <- rows :: KeepsQuery([own], key.off)
  {
    var own, r := rows[0], Stamped(key, cfg, rows[0]);
    var csv' := Csv(csv.columns + r.cols.Keys, csv.rows + [r]);
    OwnHit(csv', key, cfg, own);
    forall x | x in csv.rows ensures !Hit(csv', x, key) {
      FewerColumns(csv, csv', x, key);
    }
    assert Done(csv', key) <==> Hit(csv', r, key) by {
      assert forall x :: x in csv'.rows <==> x in csv.rows || x == r;
    }
    AppendHits(csv', key, cfg, rows[1..]);
    assert forall o :: o in rows <==> o == own || o in rows[1..];
  }

  lemma FewerColumns(csv: Csv, csv': Csv, x: Row, key: Key)
    requires csv.columns <= csv'.columns
    ensures Hit(csv', x, key) ==> Hit(csv, x, key)
  {
  }

  /** A run's own row is recognised when it kept the query. */
  lemma OwnHit(csv: Csv, key: Key, cfg: Cfg, own: Cfg)
    requires Stamped(key, cfg, own).cols.Keys <= csv.columns && Extends(cfg, key.axis, key.off)
    ensures key.off.Keys <= csv.columns
    ensures Hit(csv, Stamped(key, cfg, own), key) <==> KeepsQuery([own], key.off)
  {
    var r := Stamped(key, cfg, own);
    assert own in [own];
    if KeepsQuery([own], key.off) {
      StampedHits(csv, key, cfg, own, key);
    } else {
      assert QUERY in r.cols && r.cols[QUERY] == own[QUERY];
    }
    assert forall k <- key.off.Keys :: k in cfg.Keys;
  }

  lemma {:induction false} AppendHits(csv: Csv, key: Key, cfg: Cfg, rows: seq<Cfg>)
    requires csv.Valid() && key.off.Keys <= csv.columns && Extends(cfg, key.axis, key.off)
    ensures Done(Append(csv, key, cfg, rows), key)
       <==> Done(csv, key) || exists own <- rows :: KeepsQuery([own], key.off)
    decreases |rows|
  {
    if rows != [] {
      var own, r := rows[0], Stamped(key, cfg, rows[0]);
      var csv' := Csv(csv.columns + r.cols.Keys, csv.rows + [r]);
      OwnHit(csv', key, cfg, own);
      assert Done(csv', key) <==> Done(csv, key) || Hit(csv', r, key) by {
        assert forall x :: x in csv'.rows <==> x in csv.rows || x == r;
        assert forall x <- csv.rows :: Hit(csv', x, key) <==> Hit(csv, x, key);
      }
      assert forall o :: o in rows <==> o == own || o in rows[1..];
      AppendHits(csv', key, cfg, rows[1..]);
    }
  }

  /**
   The machine type is not part of the comparison unless it is the axis: once one machine's
   runs are recorded, the same sweep on another machine executes nothing, if and only if on
   the same one it would execute nothing either.
   */
  lemma OtherInstanceSkipped(s: Session, call: Call, other: string, bench: Bench)
    requires call.axis != INSTANCE && s.df.Valid() && Faithful(bench, call.axis)
    ensures
      var s', again, knobs := Swept(s, call, Plan(call), bench), call.(instance := other), call.KeyAt("", 0).off.Keys;
      RanKeys(Swept(s', again, Plan(again), bench).ran) == RanKeys(s'.ran)
      <==> Settled(KeysOf(call, Plan(call)), DoneSet(s.df, knobs), Lasting(s.df, knobs))
  {
    var s', again, knobs := Swept(s, call, Plan(call), bench), call.(instance := other), call.KeyAt("", 0).off.Keys;
    SweepFromAny(s, call, Plan(call), bench);
    SweepFromAny(s', again, Plan(again), bench);
    SameKeys(call, again, Plan(call));
    AgainFrom(s, s', Swept(s', again, Plan(again), bench), knobs, KeysOf(call, Plan(call)), KeysOf(again, Plan(again)));
  }
}
