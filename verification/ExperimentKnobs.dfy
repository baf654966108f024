/** Which knobs, which machine and which image the runs of an invocation have. */
module ExperimentKnobs {
  import opened Options
  import opened Sweeps
  import opened Experiments
  import opened ExperimentRuns

  /**
   Every knob has the point's own value, without one the fixed value, and without that the
   default; the axis has the value swept. The machine type is picked in the same way, unless it
   is what is swept.
   */
  ghost predicate SetFor(x: Experiment, p: Cfg, v: string, cfg: Cfg, instance: string) {
    && (forall k :: k != x.axis && k != INSTANCE ==>
          if k in p then k in cfg && cfg[k] == p[k]
          else if k in x.fixed then k in cfg && cfg[k] == x.fixed[k]
          else if k in x.defaults then k in cfg && cfg[k] == x.defaults[k]
          else k !in cfg)
    && (if x.axis == INSTANCE then instance == v
        else
          && x.axis in cfg && cfg[x.axis] == v
          && instance == if INSTANCE in p then p[INSTANCE]
                         else if INSTANCE in x.fixed then x.fixed[INSTANCE] else x.instance)
  }

  /** The run is this point's, of this axis value, with its knobs. */
  ghost predicate RunFor(x: Experiment, p: Cfg, reps: nat, v: string, key: Key, cfg: Cfg, instance: string)
    requires x.axis in p
  {
    && v in Split(p[x.axis]) && key.axis == x.axis && key.value == v && 1 <= key.rep <= reps
    && key.off == cfg - {x.axis} && SetFor(x, p, v, cfg, instance)
  }

  lemma CallSettings(x: Experiment, p: Cfg, reps: nat, v: string)
    requires x.axis in p
    ensures var call := CallFor(x, p, reps, false); SetFor(x, p, v, call.CfgAt(v), call.InstanceAt(v))
  {
  }

  // ----- what is asked for -----

  lemma {:induction false} AskedIn(call: Call, plan: seq<(string, nat)>, a: Asked) returns (v: string, rep: nat)
    requires a in AskedOf(call, plan)
    ensures (v, rep) in plan && a == Asked(call.KeyAt(v, rep), call.CfgAt(v), call.InstanceAt(v))
  {
    if a == AskedOf(call, plan)[0] {
      v, rep := plan[0].0, plan[0].1;
    } else {
      v, rep := AskedIn(call, plan[1..], a);
    }
  }

  lemma {:induction false} InReps(v: string, reps: nat, e: (string, nat))
    ensures e in RepsOf(v, reps) <==> e.0 == v && 1 <= e.1 <= reps
  {
    if reps > 0 {
      InReps(v, reps - 1, e);
    }
  }

  lemma {:induction false} InMajor(values: seq<string>, reps: nat, e: (string, nat))
    ensures e in ValueMajor(values, reps) <==> e.0 in values && 1 <= e.1 <= reps
  {
    if values != [] {
      InReps(values[0], reps, e);
      InMajor(values[1..], reps, e);
      assert e.0 in values <==> e.0 == values[0] || e.0 in values[1..];
    }
  }

  lemma PointAsks(x: Experiment, p: Cfg, reps: nat, a: Asked) returns (v: string)
    requires x.axis in p && a in AskedOf(CallFor(x, p, reps, false), Plan(CallFor(x, p, reps, false)))
    ensures RunFor(x, p, reps, v, a.key, a.cfg, a.instance)
  {
    var call := CallFor(x, p, reps, false);
    var rep: nat;
    v, rep := AskedIn(call, Plan(call), a);
    InMajor(Split(p[x.axis]), reps, (v, rep));
    CallSettings(x, p, reps, v);
  }

  lemma {:induction false} EachAsked(x: Experiment, points: seq<Cfg>, reps: nat, a: Asked)
    returns (p: Cfg, v: string)
    requires (forall q <- points :: x.axis in q) && a in AskedAll(CallsFor(x, points, reps, false))
    ensures p in points && RunFor(x, p, reps, v, a.key, a.cfg, a.instance)
  {
    var q := points[0];
    assert q in points;
    if a in AskedOf(CallFor(x, q, reps, false), Plan(CallFor(x, q, reps, false))) {
      p := q;
      v := PointAsks(x, p, reps, a);
    } else {
      p, v := EachAsked(x, points[1..], reps, a);
    }
  }

  /** Interleaved or not, each run asked for is one of a point's values, with the point's knobs. */
  lemma AskedSettings(x: Experiment, points: seq<Cfg>, reps: nat, a: Asked) returns (p: Cfg, v: string)
    requires (forall q <- points :: x.axis in q) && a in AskedAll(Calls(x, points, reps))
    ensures p in points && RunFor(x, p, reps, v, a.key, a.cfg, a.instance)
  {
    if x.interleave {
      InterleavingReorders(x, points, reps);
      var merged, single := AskedAll(Calls(x, points, reps)), AskedAll(CallsFor(x, points, reps, false));
      assert a in multiset(merged) && multiset(merged) == multiset(single);
      assert a in single;
    }
    p, v := EachAsked(x, points, reps, a);
  }

  // ----- what is started -----

  /** A run that read a whole image of the knobs it was asked for with. */
  ghost predicate StartedFor(asked: seq<Asked>, e: Executed) {
    e.image == Whole(e.cfg) && Asked(e.key, e.cfg, e.instance) in asked
  }

  predicate TreeKnown(s: Session) { s.built.Some? ==> s.tree == Whole(s.built.value) }

  lemma StartedMore(a: seq<Executed>, b: seq<Executed>, c: seq<Executed>, some: seq<Asked>, others: seq<Asked>)
    requires a <= b <= c
    requires (forall e <- b[|a|..] :: StartedFor(some, e)) && forall e <- c[|b|..] :: StartedFor(others, e)
    ensures forall e <- c[|a|..] :: StartedFor(some + others, e)
  {
    assert c[|a|..] == b[|a|..] + c[|b|..];
  }

  lemma {:induction false} SweptAsked(s: Session, call: Call, plan: seq<(string, nat)>, bench: Bench)
    requires TreeKnown(s)
    ensures
      var s' := Swept(s, call, plan, bench);
      && TreeKnown(s') && s.ran <= s'.ran
      && forall e <- s'.ran[|s.ran|..] :: StartedFor(AskedOf(call, plan), e)
    decreases |plan|
  {
    if plan != [] {
      var s1 := Visit(s, call, plan[0], bench);
      var s' := Swept(s1, call, plan[1..], bench);
      var first := AskedOf(call, plan)[..1];
      assert AskedOf(call, plan) == first + AskedOf(call, plan[1..]);
      SweptAsked(s1, call, plan[1..], bench);
      assert forall e <- s1.ran[|s.ran|..] :: StartedFor(first, e);
      StartedMore(s.ran, s1.ran, s'.ran, first, AskedOf(call, plan[1..]));
    }
  }

  lemma {:induction false} InvokedAsked(s: Session, calls: seq<Call>, bench: Bench)
    ensures
      var s' := Invoked(s, calls, bench);
      s.ran <= s'.ran && forall e <- s'.ran[|s.ran|..] :: StartedFor(AskedAll(calls), e)
    decreases |calls|
  {
    if calls != [] {
      var c, s0 := calls[0], s.(built := None);
      var s1 := Swept(s0, c, Plan(c), bench);
      SweptAsked(s0, c, Plan(c), bench);
      InvokedAsked(s1, calls[1..], bench);
      StartedMore(s.ran, s1.ran, Invoked(s, calls, bench).ran, AskedOf(c, Plan(c)), AskedAll(calls[1..]));
    }
  }

  /**
   On any CSV and bench, every run an invocation starts is of an axis value of one of its points,
   with the point's knobs on the point's machine, and reads an image built for exactly these.
   */
  lemma StartedSettings(s: Session, x: Experiment, points: seq<Cfg>, reps: nat, bench: Bench, e: Executed)
    returns (p: Cfg, v: string)
    requires forall q <- points :: x.axis in q
    requires
      var s' := Invoked(s, Calls(x, points, reps), bench);
      s.ran <= s'.ran && e in s'.ran[|s.ran|..]
    ensures p in points && RunFor(x, p, reps, v, e.key, e.cfg, e.instance)
    ensures e.image == Whole(e.cfg)
  {
    InvokedAsked(s, Calls(x, points, reps), bench);
    p, v := AskedSettings(x, points, reps, Asked(e.key, e.cfg, e.instance));
  }
}
