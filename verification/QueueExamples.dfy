/** A small queue on CSVs whose rows lack a knob's column. */
module QueueExamples {
  import opened Folds
  import opened Options
  import opened Worklist
  import opened Sweeps
  import opened Experiments
  import opened ExperimentRuns
  import opened Queue
  import opened QueueRuns
  import opened QueueFromAny
  import opened QueueLastPass
  import opened QueueOrder
  import opened SweepExamples

  /** One member, with two points of one rep each. */
  predicate TwoPoints(ms: seq<Member>) {
    && |ms| == 1 && Valid(ms) && ms[0].group == 0 && ms[0].reps == 1 && |ms[0].x.points| == 2
    && Simple(ms[0].x)
  }

  lemma TwoCalls(ms: seq<Member>)
    requires TwoPoints(ms)
    ensures AllSlots(ms, 1) == [Slot(1, 0, 0), Slot(1, 1, 0)]
  {
    forall i: nat | i < 2 ensures DueAt(ms, 0, 1, i, 1) == [Slot(1, i, 0)] {
      assert DueAt(ms, 0, 1, i, 0) == [] && Due(ms, 0, Slot(1, i, 0));
    }
    assert Round(ms, 0, 1, 0) == [] && Round(ms, 0, 1, 1) == [Slot(1, 0, 0)];
    assert Round(ms, 0, 1, 2) == [Slot(1, 0, 0)] + [Slot(1, 1, 0)];
    assert Longest(ms, 0, 0) == 0 && Longest(ms, 0, 1) == 2;
    assert Most(ms, 0, 0) == 0 && Most(ms, 0, 1) == 1;
    assert Rounds(ms, 0, 0) == [] && Rounds(ms, 0, 1) == Round(ms, 0, 1, 2);
    assert AllSlots(ms, 0) == [] && AllSlots(ms, 1) == Schedule(ms, 0);
  }

  /** The run of a point. */
  function PointKey(x: Experiment, i: nat): Key
    requires x.Valid() && i < |x.points|
  {
    RunKey(x, x.points[i], AxisAt(x, i), 1)
  }

  lemma PointCall(x: Experiment, i: nat)
    requires x.Valid() && Simple(x) && i < |x.points|
    ensures KeysAll(Calls(x, PointsAt(x, i), 1)) == [PointKey(x, i)]
  {
    var v, p := AxisAt(x, i), x.points[i];
    OnePoint(x, i);
    assert p in x.points && CommaFree(v);
    OnePointKeys(x, p, 1);
    OneRep(Held(x, p - {x.axis}), v);
    HeldIs(x, p, v, 1);
  }

  lemma OneRep(call: Call, v: string)
    ensures KeysOf(call, RepsOf(v, 1)) == [call.KeyAt(v, 1)]
  {
    assert RepsOf(v, 0) == [] && RepsOf(v, 1) == [(v, 1)] && [(v, 1)][1..] == [];
    assert KeysOf(call, [(v, 1)][1..]) == [];
  }

  lemma TwoKeys(ms: seq<Member>)
    requires TwoPoints(ms)
    ensures WholeQueue(ms, 0, 1) == [PointKey(ms[0].x, 0), PointKey(ms[0].x, 1)]
  {
    TwoCalls(ms);
    PointCall(ms[0].x, 0);
    PointCall(ms[0].x, 1);
    FlatTwo((slot: Slot) => KeysFor(ms, 0, slot), Slot(1, 0, 0), Slot(1, 1, 0));
  }

  /** A done run that does not last, before the only missing one. */
  lemma UndoneBefore(a: Key, b: Key, done: iset<Key>, kept: iset<Key>)
    requires a in done && a !in kept && b !in done
    ensures !Settled([a, b], done, kept) && NoneUndone([a, b], done, kept)
  {
    assert [a, b][1..] == [b] && [b][1..] == [];
    assert Worked([b], done, kept) == [b] && Worked([a, b], done, kept) == [b];
    assert a in [a, b];
  }

  const POINTS: seq<Cfg> := [map["n" := "1"], map["n" := "2"]]

  const SWEPT: Experiment := Experiment("n", map[], KNOB, POINTS, 1, false, "")

  lemma PointsAreSimple()
    ensures SWEPT.Valid() && Simple(SWEPT) && SWEPT.Knobs() == {"k"}
  {
    assert AxisAt(SWEPT, 0) == "1" && AxisAt(SWEPT, 1) == "2";
  }

  lemma PointRuns()
    ensures SWEPT.Valid() && PointKey(SWEPT, 0) == RunOf("1") && PointKey(SWEPT, 1) == RunOf("2")
  {
    PointsAreSimple();
    assert POINTS[0] - {"n"} == map[] && POINTS[1] - {"n"} == map[] && KNOB + map[] == KNOB - {"n"} == KNOB;
  }

  function Queued(): seq<Member> { [Member(SWEPT, 0, 1, PlainBench())] }

  function Begun(recorded: seq<string>): State { State([Start(RecordedFor(recorded))], []) }

  lemma QueuedUsable(recorded: seq<string>)
    ensures AllUsable(Queued(), Begun(recorded))
  {
    PointsAreSimple();
    PlainIsFaithful();
    RecordedIs(recorded, "");
    assert Usable(Queued(), Begun(recorded), 0);
  }

  lemma QueuedKeys()
    ensures WholeQueue(Queued(), 0, 1) == [RunOf("1"), RunOf("2")]
  {
    PointsAreSimple();
    PointRuns();
    TwoKeys(Queued());
  }

  /**
   The CSV has the first point's run in a row without a column for its knob. The queue executes
   exactly the missing run, the second point's, whose row brings the column, and the last
   pass executes the first point's once more.
   */
  lemma LastPassRuns() returns (ms: seq<Member>, q: State)
    ensures AllUsable(ms, q) && |ms| == 1 && ms[0].group == 0
    ensures
      var df, knobs := q.sessions[0].df, ms[0].x.Knobs();
      NoneUndone(WholeQueue(ms, 0, 1), DoneSet(df, knobs), Lasting(df, knobs))
    ensures Final(ms, RunGroups(ms, q, 1), 1).log != RunGroups(ms, q, 1).log
  {
    ms, q := Queued(), Begun(["1"]);
    QueuedUsable(["1"]);
    QueuedKeys();
    PointsAreSimple();
    RecordedIs(["1"], "1");
    RecordedIs(["1"], "2");
    UndoneBefore(RunOf("1"), RunOf("2"), DoneSet(RecordedFor(["1"]), {"k"}), Lasting(RecordedFor(["1"]), {"k"}));
    LastPassIff(ms, q, 1);
    assert !SettledBy(ms, q, 1, 0);
  }

  /** With the second point's run there instead, the queue itself executes that one again. */
  lemma QueueUndoes() returns (ms: seq<Member>, q: State)
    ensures AllUsable(ms, q) && |ms| == 1 == |RunGroups(ms, q, 1).sessions|
    ensures
      var s, knobs := q.sessions[0], ms[0].x.Knobs();
      RanKeys(RunGroups(ms, q, 1).sessions[0].ran)
      != RanKeys(s.ran) + Missing(WholeQueue(ms, 0, 1), DoneSet(s.df, knobs))
  {
    ms, q := Queued(), Begun(["2"]);
    QueuedUsable(["2"]);
    QueuedKeys();
    PointsAreSimple();
    RecordedIs(["2"], "1");
    RecordedIs(["2"], "2");
    UndoneBehind(RunOf("1"), RunOf("2"), DoneSet(RecordedFor(["2"]), {"k"}), Lasting(RecordedFor(["2"]), {"k"}));
    assert Usable(ms, q, 0);
    QueueExactIff(ms, q, 1, 0);
  }
}
