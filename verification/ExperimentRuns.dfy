/** The runs an experiment asks for, however its points are grouped into driver calls. */
module ExperimentRuns {
  import opened Options
  import opened Worklist
  import opened Sweeps
  import opened Experiments

  /** One run as a driver call asks for it: what identifies it, its knobs and its machine. */
  datatype Asked = Asked(key: Key, cfg: Cfg, instance: string)

  function AskedOf(call: Call, plan: seq<(string, nat)>): seq<Asked> {
    if plan == [] then []
    else
      var (v, r) := plan[0];
      [Asked(call.KeyAt(v, r), call.CfgAt(v), call.InstanceAt(v))] + AskedOf(call, plan[1..])
  }

  function AskedAll(calls: seq<Call>): seq<Asked> {
    if calls == [] then [] else AskedOf(calls[0], Plan(calls[0])) + AskedAll(calls[1..])
  }

  function KeysAll(calls: seq<Call>): seq<Key> {
    if calls == [] then [] else KeysOf(calls[0], Plan(calls[0])) + KeysAll(calls[1..])
  }

  // ----- orders within one call -----

  lemma {:induction false} AskedConcat(call: Call, a: seq<(string, nat)>, b: seq<(string, nat)>)
    ensures AskedOf(call, a + b) == AskedOf(call, a) + AskedOf(call, b)
  {
    if a == [] {
      assert a + b == b;
    } else {
      assert (a + b)[1..] == a[1..] + b;
      AskedConcat(call, a[1..], b);
    }
  }

  lemma {:induction false} LastPass(call: Call, values: seq<string>, reps: nat)
    requires reps > 0
    ensures multiset(AskedOf(call, ValueMajor(values, reps)))
         == multiset(AskedOf(call, ValueMajor(values, reps - 1))) + multiset(AskedOf(call, Pass(values, reps)))
  {
    if values != [] {
      var v, rest := values[0], values[1..];
      LastPass(call, rest, reps);
      AskedConcat(call, RepsOf(v, reps), ValueMajor(rest, reps));
      AskedConcat(call, RepsOf(v, reps - 1), [(v, reps)]);
      AskedConcat(call, RepsOf(v, reps - 1), ValueMajor(rest, reps - 1));
      AskedConcat(call, [(v, reps)], Pass(rest, reps));
    }
  }

  lemma {:induction false} NoReps(values: seq<string>)
    ensures ValueMajor(values, 0) == []
  {
    if values != [] {
      NoReps(values[1..]);
    }
  }

  lemma OnePassMore(call: Call, values: seq<string>, reps: nat, before: seq<(string, nat)>)
    requires reps > 0
    requires multiset(AskedOf(call, before)) == multiset(AskedOf(call, ValueMajor(values, reps - 1)))
    ensures multiset(AskedOf(call, before + Pass(values, reps))) == multiset(AskedOf(call, ValueMajor(values, reps)))
  {
    LastPass(call, values, reps);
    AskedConcat(call, before, Pass(values, reps));
  }

  /** Rep by rep or value by value: the same runs. */
  lemma MajorOrder(call: Call, values: seq<string>, reps: nat)
    ensures multiset(AskedOf(call, RepMajor(values, reps))) == multiset(AskedOf(call, ValueMajor(values, reps)))
  {
    NoReps(values);
    var plan := [];
    for r := 0 to reps
      invariant plan == RepMajor(values, r)
      invariant multiset(AskedOf(call, plan)) == multiset(AskedOf(call, ValueMajor(values, r)))
    {
      OnePassMore(call, values, r + 1, plan);
      plan := plan + Pass(values, r + 1);
    }
  }

  lemma {:induction false} ValueMajorConcat(a: seq<string>, b: seq<string>, reps: nat)
    ensures ValueMajor(a + b, reps) == ValueMajor(a, reps) + ValueMajor(b, reps)
  {
    if a == [] {
      assert a + b == b;
    } else {
      assert (a + b)[1..] == a[1..] + b;
      ValueMajorConcat(a[1..], b, reps);
    }
  }

  // ----- regrouping -----

  /** The call for these knobs, with nothing to sweep. */
  function Held(x: Experiment, off: Cfg): Call { CallWith(x, off, [], 0, false) }

  /** The runs of one axis value of a point, cut at its commas. */
  ghost function Work(x: Experiment, off: Cfg, value: string, reps: nat): multiset<Asked> {
    multiset(AskedOf(Held(x, off), ValueMajor(Split(value), reps)))
  }

  ghost function ValuesWork(x: Experiment, off: Cfg, values: seq<string>, reps: nat): multiset<Asked> {
    if values == [] then multiset{} else Work(x, off, values[0], reps) + ValuesWork(x, off, values[1..], reps)
  }

  ghost function GroupsWork(x: Experiment, groups: seq<Group>, reps: nat): multiset<Asked> {
    if groups == [] then multiset{}
    else ValuesWork(x, groups[0].off, groups[0].values, reps) + GroupsWork(x, groups[1..], reps)
  }

  ghost function PointsWork(x: Experiment, points: seq<Cfg>, reps: nat): multiset<Asked>
    requires forall p <- points :: x.axis in p
  {
    if points == [] then multiset{}
    else
      assert points[0] in points;
      Work(x, points[0] - {x.axis}, points[0][x.axis], reps) + PointsWork(x, points[1..], reps)
  }

  lemma {:induction false} OneMoreValue(x: Experiment, off: Cfg, values: seq<string>, value: string, reps: nat)
    ensures ValuesWork(x, off, values + [value], reps) == ValuesWork(x, off, values, reps) + Work(x, off, value, reps)
  {
    if values == [] {
      assert (values + [value])[1..] == [];
    } else {
      assert (values + [value])[1..] == values[1..] + [value];
      OneMoreValue(x, off, values[1..], value, reps);
    }
  }

  lemma FirstGroup(x: Experiment, g: Group, rest: seq<Group>, reps: nat)
    ensures GroupsWork(x, [g] + rest, reps) == ValuesWork(x, g.off, g.values, reps) + GroupsWork(x, rest, reps)
  {
    assert ([g] + rest)[1..] == rest;
  }

  lemma {:induction false} InsertAdds(x: Experiment, groups: seq<Group>, off: Cfg, value: string, reps: nat)
    requires Made(x.axis, groups) && x.axis !in off
    ensures GroupsWork(x, Insert(x.axis, groups, off, value), reps)
        == GroupsWork(x, groups, reps) + Work(x, off, value, reps)
  {
    if groups == [] {
      OneMoreValue(x, off, [], value, reps);
      assert [] + [value] == [value];
      FirstGroup(x, Group(off, [value]), [], reps);
    } else if groups[0].off == off {
      OneMoreValue(x, off, groups[0].values, value, reps);
      FirstGroup(x, Group(off, groups[0].values + [value]), groups[1..], reps);
      Rearranged(ValuesWork(x, off, groups[0].values, reps), Work(x, off, value, reps),
          GroupsWork(x, groups[1..], reps));
    } else {
      InsertAdds(x, groups[1..], off, value, reps);
      FirstGroup(x, groups[0], Insert(x.axis, groups[1..], off, value), reps);
      Rearranged(ValuesWork(x, groups[0].off, groups[0].values, reps), Work(x, off, value, reps),
                 GroupsWork(x, groups[1..], reps));
    }
  }

  lemma Rearranged(a: multiset<Asked>, b: multiset<Asked>, c: multiset<Asked>)
    ensures a + b + c == a + c + b == a + (c + b)
  {
  }

  lemma {:induction false} GroupedAdds(x: Experiment, groups: seq<Group>, points: seq<Cfg>, reps: nat)
    requires Made(x.axis, groups) && forall p <- points :: x.axis in p
    ensures GroupsWork(x, Grouped(x.axis, groups, points), reps)
        == GroupsWork(x, groups, reps) + PointsWork(x, points, reps)
    decreases |points|
  {
    if points != [] {
      var p := points[0];
      assert p in points;
      InsertAdds(x, groups, p - {x.axis}, p[x.axis], reps);
      GroupedAdds(x, Insert(x.axis, groups, p - {x.axis}, p[x.axis]), points[1..], reps);
    }
  }

  // ----- what the calls ask for -----

  lemma {:induction false} SameAsked(a: Call, b: Call, plan: seq<(string, nat)>)
    requires a.axis == b.axis && a.base == b.base && a.instance == b.instance
    ensures AskedOf(a, plan) == AskedOf(b, plan)
  {
    if plan != [] {
      SameAsked(a, b, plan[1..]);
    }
  }

  lemma CallAsks(x: Experiment, off: Cfg, value: string, reps: nat, interleave: bool)
    ensures
      var call := CallWith(x, off, Split(value), reps, interleave);
      multiset(AskedOf(call, Plan(call))) == Work(x, off, value, reps)
  {
    var call := CallWith(x, off, Split(value), reps, interleave);
    SameAsked(call, Held(x, off), Plan(call));
    MajorOrder(Held(x, off), Split(value), reps);
  }

  lemma {:induction false} JoinedWork(x: Experiment, off: Cfg, values: seq<string>, reps: nat)
    requires values != []
    ensures Work(x, off, Join(values), reps) == ValuesWork(x, off, values, reps)
  {
    if |values| == 1 {
      assert values[1..] == [];
    } else {
      JoinedWork(x, off, values[1..], reps);
      SplitConcat(values[0], Join(values[1..]));
      ValueMajorConcat(Split(values[0]), Split(Join(values[1..])), reps);
      AskedConcat(Held(x, off), ValueMajor(Split(values[0]), reps), ValueMajor(Split(Join(values[1..])), reps));
    }
  }

  lemma {:induction false} PointCalls(x: Experiment, points: seq<Cfg>, reps: nat, interleave: bool)
    requires forall p <- points :: x.axis in p
    ensures multiset(AskedAll(CallsFor(x, points, reps, interleave))) == PointsWork(x, points, reps)
  {
    if points != [] {
      var p := points[0];
      assert p in points;
      CallAsks(x, p - {x.axis}, p[x.axis], reps, interleave);
      PointCalls(x, points[1..], reps, interleave);
    }
  }

  lemma {:induction false} MergedWork(x: Experiment, groups: seq<Group>, reps: nat)
    requires Made(x.axis, groups)
    ensures PointsWork(x, Merged(x.axis, groups), reps) == GroupsWork(x, groups, reps)
  {
    if groups != [] {
      var g := groups[0];
      assert g in groups;
      assert g.off[x.axis := Join(g.values)] - {x.axis} == g.off;
      JoinedWork(x, g.off, g.values, reps);
      MergedWork(x, groups[1..], reps);
    }
  }

  /**
   Interleaving is a pure reordering: the joined, re-split and rep-major calls ask for the same
   runs, each as often, with the same knobs on the same machine, as one value-major call per
   point.
   */
  lemma InterleavingReorders(x: Experiment, points: seq<Cfg>, reps: nat)
    requires forall p <- points :: x.axis in p
    ensures multiset(AskedAll(CallsFor(x, Merged(x.axis, Grouped(x.axis, [], points)), reps, true)))
         == multiset(AskedAll(CallsFor(x, points, reps, false)))
  {
    var merged := Merged(x.axis, Grouped(x.axis, [], points));
    PointCalls(x, merged, reps, true);
    MergedWork(x, Grouped(x.axis, [], points), reps);
    GroupedAdds(x, [], points, reps);
    PointCalls(x, points, reps, false);
  }

  // ----- what an invocation runs -----

  /** A knob's value for a point: its own, or else the fixed one, or else the default. */
  function Setting(x: Experiment, p: Cfg, k: string): string
    requires k in x.defaults || k in x.fixed || k in p
    requires k == INSTANCE ==> k in x.defaults
  {
    if k != INSTANCE && k in p then p[k] else if k != INSTANCE && k in x.fixed then x.fixed[k] else x.defaults[k]
  }

  /** Every knob but the axis; the machine type is a knob only where the driver has it as one. */
  function Settings(x: Experiment, p: Cfg): Cfg {
    map k | k in x.defaults.Keys + (x.fixed.Keys + p.Keys - {INSTANCE}) && k != x.axis :: Setting(x, p, k)
  }

  /** What identifies the run of an axis value of a point. */
  function RunKey(x: Experiment, p: Cfg, v: string, rep: nat): Key { Key(x.axis, v, rep, Settings(x, p)) }

  lemma HeldAt(x: Experiment, p: Cfg, base: Cfg, k: string)
    requires base == Held(x, p - {x.axis}).base && k != x.axis
    ensures k in base <==> k in x.defaults || (k != INSTANCE && (k in x.fixed || k in p))
    ensures k in base ==> base[k] == Setting(x, p, k)
  {
  }

  lemma HeldSettings(x: Experiment, p: Cfg, base: Cfg)
    requires base == Held(x, p - {x.axis}).base
    ensures base - {x.axis} == Settings(x, p)
  {
    forall k | k != x.axis ensures k in base <==> k in Settings(x, p) {
      HeldAt(x, p, base, k);
    }
    forall k | k in base && k != x.axis ensures base[k] == Settings(x, p)[k] {
      HeldAt(x, p, base, k);
    }
  }

  lemma HeldIs(x: Experiment, p: Cfg, v: string, rep: nat)
    ensures Held(x, p - {x.axis}).KeyAt(v, rep) == RunKey(x, p, v, rep)
  {
    HeldSettings(x, p, Held(x, p - {x.axis}).base);
  }

  /** The run is one of the point's: one of its axis values, one of the reps. */
  ghost predicate Asks(x: Experiment, p: Cfg, reps: nat, key: Key)
    requires x.axis in p
  {
    exists v <- Split(p[x.axis]), r: nat :: 1 <= r <= reps && key == RunKey(x, p, v, r)
  }

  lemma {:induction false} KeysAsked(call: Call, plan: seq<(string, nat)>, key: Key)
    ensures key in KeysOf(call, plan) <==> exists a <- AskedOf(call, plan) :: a.key == key
  {
    if plan != [] {
      KeysAsked(call, plan[1..], key);
      var first := AskedOf(call, plan)[0];
      assert forall a :: a in AskedOf(call, plan) <==> a == first || a in AskedOf(call, plan[1..]);
    }
  }

  lemma {:induction false} KeysAskedAll(calls: seq<Call>, key: Key)
    ensures key in KeysAll(calls) <==> exists a <- AskedAll(calls) :: a.key == key
  {
    if calls != [] {
      KeysAskedAll(calls[1..], key);
      KeysAsked(calls[0], Plan(calls[0]), key);
      assert forall a :: a in AskedAll(calls) <==> a in AskedOf(calls[0], Plan(calls[0])) || a in AskedAll(calls[1..]);
    }
  }

  lemma KeysUnordered(a: seq<Call>, b: seq<Call>, key: Key)
    requires multiset(AskedAll(a)) == multiset(AskedAll(b))
    ensures key in KeysAll(a) <==> key in KeysAll(b)
  {
    KeysAskedAll(a, key);
    KeysAskedAll(b, key);
    assert forall x :: x in AskedAll(a) <==> x in multiset(AskedAll(a));
    assert forall x :: x in AskedAll(b) <==> x in multiset(AskedAll(b));
  }

  lemma {:induction false} KeysOfPoints(x: Experiment, points: seq<Cfg>, reps: nat, key: Key)
    requires forall p <- points :: x.axis in p
    ensures key in KeysAll(CallsFor(x, points, reps, false)) <==> exists p <- points :: Asks(x, p, reps, key)
  {
    if points != [] {
      var p := points[0];
      assert p in points;
      KeysOfPoints(x, points[1..], reps, key);
      PointKeys(x, p, reps, key);
      assert forall q :: q in points <==> q == p || q in points[1..];
    }
  }

  lemma PointKeys(x: Experiment, p: Cfg, reps: nat, key: Key)
    requires x.axis in p
    ensures key in KeysOf(CallFor(x, p, reps, false), Plan(CallFor(x, p, reps, false))) <==> Asks(x, p, reps, key)
  {
    SameKeysHeld(x, p, reps);
    KeysOfValues(Held(x, p - {x.axis}), Split(p[x.axis]), reps, key);
    forall v, r: nat ensures Held(x, p - {x.axis}).KeyAt(v, r) == RunKey(x, p, v, r) {
      HeldIs(x, p, v, r);
    }
  }

  lemma SameKeysHeld(x: Experiment, p: Cfg, reps: nat)
    requires x.axis in p
    ensures
      var call, held := CallFor(x, p, reps, false), Held(x, p - {x.axis});
      KeysOf(call, Plan(call)) == KeysOf(held, ValueMajor(Split(p[x.axis]), reps))
  {
    var call := CallFor(x, p, reps, false);
    SameKeys(call, Held(x, p - {x.axis}), Plan(call));
  }

  /** An invocation asks for the runs of its points and no others, interleaved or not. */
  lemma InvocationKeys(x: Experiment, points: seq<Cfg>, reps: nat, key: Key)
    requires forall p <- points :: x.axis in p
    ensures key in KeysAll(Calls(x, points, reps)) <==> exists p <- points :: Asks(x, p, reps, key)
  {
    if x.interleave {
      InterleavingReorders(x, points, reps);
      KeysUnordered(Calls(x, points, reps), CallsFor(x, points, reps, false), key);
    }
    KeysOfPoints(x, points, reps, key);
  }

  // ----- working an invocation off -----

  predicate Uniform(calls: seq<Call>, axis: string, knobs: set<string>) {
    forall c <- calls :: c.axis == axis && c.base.Keys - {axis} == knobs
  }

  lemma {:induction false} InvokedWorksOff(s: Session, calls: seq<Call>, axis: string, knobs: set<string>, bench: Bench)
    requires Uniform(calls, axis, knobs) && Ready(s.df, knobs) && Faithful(bench, axis)
    ensures WorkedOff(s, Invoked(s, calls, bench), knobs, KeysAll(calls))
    decreases |calls|
  {
    if calls == [] {
      assert Members<Key>([]) == iset{};
    } else {
      var c, s0 := calls[0], s.(built := None);
      assert c in calls && c.KeyAt("", 0).off.Keys == knobs;
      SweepWorksOff(s0, c, Plan(c), bench);
      var s1 := Swept(s0, c, Plan(c), bench);
      assert WorkedOff(s, s1, knobs, KeysOf(c, Plan(c)));
      InvokedWorksOff(s1, calls[1..], axis, knobs, bench);
      WorkedOffTwice(s, s1, Invoked(s1, calls[1..], bench), knobs, KeysOf(c, Plan(c)), KeysAll(calls[1..]));
    }
  }

  lemma {:induction false} UniformCalls(x: Experiment, points: seq<Cfg>, reps: nat, interleave: bool)
    requires x.Known(points)
    ensures Uniform(CallsFor(x, points, reps, interleave), x.axis, x.Knobs())
  {
    if points != [] {
      assert points[0] in points;
      UniformCalls(x, points[1..], reps, interleave);
    }
  }

  lemma {:induction false} InsertKnown(x: Experiment, groups: seq<Group>, off: Cfg, value: string, all: set<string>)
    requires Made(x.axis, groups) && x.axis !in off && off.Keys <= all
    requires forall g <- groups :: g.off.Keys <= all
    ensures forall g <- Insert(x.axis, groups, off, value) :: g.off.Keys <= all
  {
    if groups != [] && groups[0].off != off {
      InsertKnown(x, groups[1..], off, value, all);
    }
  }

  lemma {:induction false} GroupedKnown(x: Experiment, groups: seq<Group>, points: seq<Cfg>, all: set<string>)
    requires Made(x.axis, groups) && forall p <- points :: x.axis in p && p.Keys <= all
    requires forall g <- groups :: g.off.Keys <= all
    ensures forall g <- Grouped(x.axis, groups, points) :: g.off.Keys <= all
    decreases |points|
  {
    if points != [] {
      var p := points[0];
      assert p in points;
      InsertKnown(x, groups, p - {x.axis}, p[x.axis], all);
      GroupedKnown(x, Insert(x.axis, groups, p - {x.axis}, p[x.axis]), points[1..], all);
    }
  }

  lemma {:induction false} MergedKnown(x: Experiment, groups: seq<Group>, all: set<string>)
    requires Made(x.axis, groups) && x.axis in all && forall g <- groups :: g.off.Keys <= all
    ensures forall p <- Merged(x.axis, groups) :: p.Keys <= all
  {
    if groups != [] {
      assert groups[0] in groups;
      MergedKnown(x, groups[1..], all);
    }
  }

  /**
   An invocation, of whatever kind, executes exactly the runs of its points that its CSV does
   not have, each once.
   */
  lemma InvocationWorksOff(s: Session, x: Experiment, points: seq<Cfg>, reps: nat, bench: Bench)
    requires x.Known(points) && Ready(s.df, x.Knobs()) && Faithful(bench, x.axis)
    ensures WorkedOff(s, Invoked(s, Calls(x, points, reps), bench), x.Knobs(), KeysAll(Calls(x, points, reps)))
  {
    UniformInvocation(x, points, reps);
    InvokedWorksOff(s, Calls(x, points, reps), x.axis, x.Knobs(), bench);
  }

  // ----- on any CSV -----

  lemma NothingWorked(s: Session, s': Session, knobs: set<string>)
    requires s.df.Valid() && s'.df == s.df && s'.ran == s.ran
    ensures WorkedFrom(s, s', knobs, [])
  {
  }

  lemma {:induction false} InvokedFromAny(s: Session, calls: seq<Call>, axis: string, knobs: set<string>, bench: Bench)
    requires Uniform(calls, axis, knobs) && s.df.Valid() && Faithful(bench, axis)
    ensures WorkedFrom(s, Invoked(s, calls, bench), knobs, KeysAll(calls))
    decreases |calls|
  {
    if calls == [] {
      NothingWorked(s, s, knobs);
    } else {
      var c, s0 := calls[0], s.(built := None);
      assert c in calls && c.KeyAt("", 0).off.Keys == knobs;
      SweepFromAny(s0, c, Plan(c), bench);
      var s1 := Swept(s0, c, Plan(c), bench);
      assert WorkedFrom(s, s1, knobs, KeysOf(c, Plan(c)));
      InvokedFromAny(s1, calls[1..], axis, knobs, bench);
      WorkedFromTwice(s, s1, Invoked(s1, calls[1..], bench), knobs, KeysOf(c, Plan(c)), KeysAll(calls[1..]));
    }
  }

  lemma UniformInvocation(x: Experiment, points: seq<Cfg>, reps: nat)
    requires x.Known(points)
    ensures Uniform(Calls(x, points, reps), x.axis, x.Knobs())
  {
    var all := x.defaults.Keys + {x.axis, INSTANCE};
    GroupedKnown(x, [], points, all);
    MergedKnown(x, Grouped(x.axis, [], points), all);
    UniformCalls(x, points, reps, false);
    UniformCalls(x, Merged(x.axis, Grouped(x.axis, [], points)), reps, true);
  }

  /** On a CSV that lacks columns, an invocation also repeats what its first run undoes. */
  lemma InvocationFromAny(s: Session, x: Experiment, points: seq<Cfg>, reps: nat, bench: Bench)
    requires x.Known(points) && s.df.Valid() && Faithful(bench, x.axis)
    ensures WorkedFrom(s, Invoked(s, Calls(x, points, reps), bench), x.Knobs(), KeysAll(Calls(x, points, reps)))
  {
    UniformInvocation(x, points, reps);
    InvokedFromAny(s, Calls(x, points, reps), x.axis, x.Knobs(), bench);
  }
}
