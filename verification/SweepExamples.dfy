/** Small sweeps on a CSV whose rows lack a knob's column, where it makes a difference. */
module SweepExamples {
  import opened Options
  import opened Worklist
  import opened Sweeps
  import opened SweepKills
  import opened SweepRepeats

  const KNOB: Cfg := map["k" := "v"]

  /** The run of a value of the axis `n`, with the knob set. */
  function RunOf(v: string): Key { Key("n", v, 1, KNOB) }

  function RowsFor(values: seq<string>): seq<Row> {
    if values == [] then [] else RowsFor(values[..|values| - 1]) + [Row("n", values[|values| - 1], 1, map[])]
  }

  /** These values are recorded, in rows from before the knob had a column. */
  function RecordedFor(values: seq<string>): Csv { Csv({}, RowsFor(values)) }

  lemma {:induction false} RowIn(values: seq<string>, r: Row)
    ensures r in RowsFor(values) <==> r.axis == "n" && r.value in values && r.rep == 1 && r.cols == map[]
  {
    if values != [] {
      RowIn(values[..|values| - 1], r);
      assert r.value in values <==> r.value in values[..|values| - 1] || r.value == values[|values| - 1];
    }
  }

  lemma RecordedIs(values: seq<string>, v: string)
    ensures RecordedFor(values).Valid()
    ensures RunOf(v) in DoneSet(RecordedFor(values), {"k"}) <==> v in values
    ensures RunOf(v) !in Lasting(RecordedFor(values), {"k"})
  {
    var df, row := RecordedFor(values), Row("n", v, 1, map[]);
    forall r <- df.rows ensures r.cols == map[] && r.axis == "n" && r.value in values {
      RowIn(values, r);
    }
    RowIn(values, row);
    assert KNOB.Keys == {"k"} && Hit(df, row, RunOf(v));
    assert "k" in RunOf(v).off.Keys && !UnseenEmpty(df, RunOf(v));
  }

  /** A bench that answers every run with one row that names no query. */
  function PlainBench(): Bench { (n: nat, cfg: Cfg) => [map[]] }

  lemma PlainIsFaithful()
    ensures Faithful(PlainBench(), "n")
  {
  }

  function SweepOf(values: seq<string>): Call { Call("n", KNOB, values, 1, false, "") }

  function Start(df: Csv): Session { Session(df, Half, None, [], []) }

  function RunsOf(values: seq<string>): seq<Key> {
    if values == [] then [] else [RunOf(values[0])] + RunsOf(values[1..])
  }

  lemma {:induction false} KeysOfSweep(call: Call, values: seq<string>)
    requires call.axis == "n" && call.base == KNOB
    ensures KeysOf(call, ValueMajor(values, 1)) == RunsOf(values)
  {
    if values != [] {
      var v := values[0];
      KeysOfSweep(call, values[1..]);
      assert KNOB - {"n"} == KNOB;
      assert RepsOf(v, 0) == [] && RepsOf(v, 1) == [(v, 1)]
          && [(v, 1)] + ValueMajor(values[1..], 1) == ValueMajor(values, 1);
      assert ([(v, 1)] + ValueMajor(values[1..], 1))[1..] == ValueMajor(values[1..], 1);
    }
  }

  lemma TwoRuns(a: string, b: string)
    ensures RunsOf([a, b]) == [RunOf(a), RunOf(b)]
  {
    assert [a, b][1..] == [b] && [b][1..] == [];
    assert RunsOf([b]) == [RunOf(b)] + RunsOf([b][1..]);
    assert RunsOf([a, b]) == [RunOf(a)] + RunsOf([a, b][1..]);
  }

  lemma ThreeRuns(a: string, b: string, c: string)
    ensures RunsOf([a, b, c]) == [RunOf(a), RunOf(b), RunOf(c)]
  {
    TwoRuns(b, c);
    assert [a, b, c][1..] == [b, c];
  }

  /** A missing run, and behind it a done one that does not last. */
  lemma UndoneBehind(a: Key, b: Key, done: iset<Key>, kept: iset<Key>)
    requires a !in done && b in done && b !in kept
    ensures !NoneUndone([a, b], done, kept)
  {
    assert [a, b][1..] == [b] && b in [b];
  }

  /** With the second value recorded, the sweep executes the missing first and the second again. */
  lemma SweepUndoes() returns (s: Session, call: Call, bench: Bench)
    ensures s.df.Valid() && Faithful(bench, call.axis)
    ensures
      var knobs, keys := call.KeyAt("", 0).off.Keys, KeysOf(call, Plan(call));
      RanKeys(Swept(s, call, Plan(call), bench).ran) != RanKeys(s.ran) + Missing(keys, DoneSet(s.df, knobs))
  {
    s, call, bench := Start(RecordedFor(["2"])), SweepOf(["1", "2"]), PlainBench();
    PlainIsFaithful();
    RecordedIs(["2"], "1");
    RecordedIs(["2"], "2");
    KeysOfSweep(call, call.values);
    TwoRuns("1", "2");
    assert KNOB - {"n"} == KNOB && KNOB.Keys == {"k"};
    UndoneBehind(RunOf("1"), RunOf("2"), DoneSet(s.df, {"k"}), Lasting(s.df, {"k"}));
    SweepExactIff(s, call, Plan(call), bench);
  }

  /** Two done runs that do not last before the only missing one. */
  lemma TwoBefore(a: Key, b: Key, c: Key, done: iset<Key>, kept: iset<Key>)
    requires a in done && b in done && c !in done && a !in kept && b !in kept && c !in kept
    requires a != b && a != c && b != c
    ensures Missing([a, b, c], done) == [c] == Worked([a, b, c], done, kept) && |Missing([a, b, c], kept)| == 3
  {
    assert [a, b, c][1..] == [b, c] && [b, c][1..] == [c];
    OneLeft(c, done, kept);
    OneLeft(c, kept + iset{a} + iset{b}, kept);
    assert Missing([b, c], done) == Missing([b, c][1..], done);
    assert Worked([b, c], done, kept) == Worked([b, c][1..], done, kept);
    assert Missing([b, c], kept + iset{a}) == [b] + Missing([b, c][1..], kept + iset{a} + iset{b});
  }

  lemma OneLeft(c: Key, done: iset<Key>, kept: iset<Key>)
    requires c !in done
    ensures Missing([c], done) == [c] == Worked([c], done, kept)
  {
    assert Missing([c][1..], done + iset{c}) == [] == Missing([c][1..], kept + iset{c});
  }

  /**
   With two of three values recorded: killed behind the missing run, the sweep starts the other
   two again, three runs for one missing and one kill.
   */
  lemma MoreThanMissing() returns (job: Job, s: Session)
    ensures s.df.Valid() && Faithful(job.bench, job.call.axis) && !Bounded(job, s)
  {
    var values := ["1", "2", "3"];
    var call := SweepOf(values);
    s, job := Start(RecordedFor(["1", "2"])), Job(call, Plan(call), PlainBench());
    PlainIsFaithful();
    forall v <- values ensures RunOf(v) in DoneSet(s.df, {"k"}) <==> v in ["1", "2"] {
      RecordedIs(["1", "2"], v);
    }
    forall v <- values ensures RunOf(v) !in Lasting(s.df, {"k"}) {
      RecordedIs(["1", "2"], v);
    }
    assert "1" in values && "2" in values && "3" in values;
    KeysOfSweep(call, values);
    ThreeRuns("1", "2", "3");
    assert KNOB - {"n"} == KNOB && KNOB.Keys == {"k"};
    TwoBefore(RunOf("1"), RunOf("2"), RunOf("3"), DoneSet(s.df, {"k"}), Lasting(s.df, {"k"}));
    assert RunOf("1") in [RunOf("1"), RunOf("2"), RunOf("3")];
    RecordedIs(["1", "2"], "1");
    StartedIff(job, s);
  }
}
