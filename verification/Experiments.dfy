/**
 Running a stored experiment: its points are filtered, possibly regrouped so that one driver
 call covers all values of the axis, and handed to the sweep driver one after another.
 */
module Experiments {
  import opened Folds
  import opened Options
  import opened Sweeps

  datatype Experiment = Experiment(axis: string, fixed: Cfg, defaults: Cfg, points: seq<Cfg>,
                                   reps: nat, interleave: bool, instance: string) {
    /** Points that say where on the axis they are, and set only knobs the driver has. */
    predicate Known(points: seq<Cfg>) {
      && fixed.Keys <= defaults.Keys + {axis, INSTANCE}
      && forall p <- points :: axis in p && p.Keys <= defaults.Keys + {axis, INSTANCE}
    }

    predicate Valid() { Known(points) && forall p <- points :: p[axis] != "" }

    /** The knobs that identify a run besides the axis. */
    function Knobs(): set<string> { defaults.Keys - {axis} }
  }

  // ----- lists of values in one argument -----

  /** Cutting at every comma. */
  function Split(s: string): (parts: seq<string>)
    ensures parts != []
  {
    if s == "" then [""] else Prepend(s[0], Split(s[1..]))
  }

  /** The first character starts a part of its own, or joins the first part of the rest. */
  function Prepend(c: char, parts: seq<string>): (longer: seq<string>)
    requires parts != []
    ensures longer != []
  {
    if c == ',' then [""] + parts else [[c] + parts[0]] + parts[1..]
  }

  function Join(values: seq<string>): string
    requires values != []
  {
    if |values| == 1 then values[0] else values[0] + "," + Join(values[1..])
  }

  function SplitAll(values: seq<string>): seq<string> {
    if values == [] then [] else Split(values[0]) + SplitAll(values[1..])
  }

  lemma SplitStep(c: char, s: string)
    ensures Split([c] + s) == Prepend(c, Split(s))
  {
    assert ([c] + s)[1..] == s;
  }

  lemma PrependConcat(c: char, a: seq<string>, b: seq<string>)
    requires a != []
    ensures Prepend(c, a + b) == Prepend(c, a) + b
  {
    assert (a + b)[1..] == a[1..] + b;
  }

  lemma {:induction false} SplitConcat(a: string, b: string)
    ensures Split(a + "," + b) == Split(a) + Split(b)
  {
    if a == "" {
      assert a + "," + b == [','] + b;
      SplitStep(',', b);
    } else {
      var rest := a[1..];
      SplitConcat(rest, b);
      SplitStep(a[0], rest);
      SplitStep(a[0], rest + "," + b);
      PrependConcat(a[0], Split(rest), Split(b));
      assert [a[0]] + rest == a && [a[0]] + (rest + "," + b) == a + "," + b;
    }
  }

  lemma {:induction false} SplitJoin(values: seq<string>)
    requires values != []
    ensures Split(Join(values)) == SplitAll(values)
  {
    if |values| == 1 {
      assert SplitAll(values[1..]) == [];
    } else {
      SplitJoin(values[1..]);
      SplitConcat(values[0], Join(values[1..]));
    }
  }

  predicate CommaFree(s: string) { ',' !in s }

  lemma {:induction false} SplitOne(s: string)
    ensures CommaFree(s) ==> Split(s) == [s]
    ensures !CommaFree(s) ==> |Split(s)| > 1
  {
    if s != "" {
      SplitOne(s[1..]);
      assert s == [s[0]] + s[1..];
      assert CommaFree(s) <==> s[0] != ',' && CommaFree(s[1..]);
    }
  }

  lemma {:induction false} SplitAllSize(values: seq<string>)
    ensures |SplitAll(values)| >= |values|
    ensures |SplitAll(values)| == |values| ==> forall v <- values :: CommaFree(v)
    ensures (forall v <- values :: CommaFree(v)) ==> SplitAll(values) == values
  {
    if values != [] {
      SplitOne(values[0]);
      SplitAllSize(values[1..]);
      assert forall v :: v in values <==> v == values[0] || v in values[1..];
      assert values == [values[0]] + values[1..];
    }
  }

  /** A joined list of values comes back unchanged if and only if no value holds a comma. */
  lemma ListSurvives(values: seq<string>)
    requires values != []
    ensures Split(Join(values)) == values <==> forall v <- values :: CommaFree(v)
  {
    SplitJoin(values);
    SplitAllSize(values);
  }

  lemma {:induction false} PrependJoins(c: char, parts: seq<string>)
    requires parts != []
    ensures Join(Prepend(c, parts)) == [c] + Join(parts)
  {
    if c == ',' {
      assert ([""] + parts)[1..] == parts;
      assert "" + "," + Join(parts) == [','] + Join(parts);
    } else if |parts| > 1 {
      assert ([[c] + parts[0]] + parts[1..])[1..] == parts[1..];
      assert [c] + parts[0] + "," + Join(parts[1..]) == [c] + (parts[0] + "," + Join(parts[1..]));
    }
  }

  lemma PrependCommaFree(c: char, parts: seq<string>)
    requires parts != [] && forall v <- parts :: CommaFree(v)
    ensures forall v <- Prepend(c, parts) :: CommaFree(v)
  {
    assert parts[0] in parts && forall v <- parts[1..] :: v in parts;
  }

  /** Splitting cuts at the commas and nowhere else: the parts have none, and joined they are the text. */
  lemma {:induction false} SplitIs(s: string)
    ensures Join(Split(s)) == s && forall v <- Split(s) :: CommaFree(v)
  {
    if s != "" {
      SplitIs(s[1..]);
      PrependJoins(s[0], Split(s[1..]));
      PrependCommaFree(s[0], Split(s[1..]));
      assert [s[0]] + s[1..] == s;
    }
  }

  // ----- filtering and regrouping points -----

  /** A knob of a point, or the experiment's fixed value for it. */
  function Knob(x: Experiment, p: Cfg, knob: string): string {
    if knob in p then p[knob] else if knob in x.fixed then x.fixed[knob] else "None"
  }

  predicate Has(x: Experiment, p: Cfg, knob: string, value: string) { Knob(x, p, knob) == value }

  function Only(x: Experiment, points: seq<Cfg>, knob: string, value: string): seq<Cfg> {
    Filter((p: Cfg) => Has(x, p, knob, value), points)
  }

  lemma OnlyWithin(x: Experiment, points: seq<Cfg>, knob: string, value: string)
    ensures forall p <- Only(x, points, knob, value) :: p in points
  {
    forall p <- Only(x, points, knob, value) ensures p in points {
      FilterMembers((q: Cfg) => Has(x, q, knob, value), points, p);
    }
  }

  /** The points of an invocation, with or without a filter. */
  function Chosen(x: Experiment, only: Option<(string, string)>): (points: seq<Cfg>)
    ensures forall p <- points :: p in x.points
  {
    if only.None? then x.points
    else
      OnlyWithin(x, x.points, only.value.0, only.value.1);
      Only(x, x.points, only.value.0, only.value.1)
  }

  /** Points that share every knob but the axis, with their axis values in order. */
  datatype Group = Group(off: Cfg, values: seq<string>)

  function Insert(axis: string, groups: seq<Group>, off: Cfg, value: string): (r: seq<Group>)
    requires Made(axis, groups) && axis !in off
    ensures Made(axis, r)
  {
    if groups == [] then [Group(off, [value])]
    else if groups[0].off == off then [Group(off, groups[0].values + [value])] + groups[1..]
    else [groups[0]] + Insert(axis, groups[1..], off, value)
  }

  /** A group as the loop makes them: it has a value, and the axis is not among its knobs. */
  predicate Made(axis: string, groups: seq<Group>) {
    forall g <- groups :: g.values != [] && axis !in g.off
  }

  function Grouped(axis: string, groups: seq<Group>, points: seq<Cfg>): (r: seq<Group>)
    requires Made(axis, groups) && forall p <- points :: axis in p
    ensures Made(axis, r)
    decreases |points|
  {
    if points == [] then groups
    else
      assert points[0] in points;
      Grouped(axis, Insert(axis, groups, points[0] - {axis}, points[0][axis]), points[1..])
  }

  function Merged(axis: string, groups: seq<Group>): (points: seq<Cfg>)
    requires Made(axis, groups)
    ensures forall p <- points :: axis in p
  {
    if groups == [] then []
    else
      assert groups[0] in groups;
      [groups[0].off[axis := Join(groups[0].values)]] + Merged(axis, groups[1..])
  }

  /** The grouping loop: a dictionary that remembers the order in which its keys came. */
  method Regroup(axis: string, points: seq<Cfg>) returns (merged: seq<Cfg>)
    requires forall p <- points :: axis in p
    ensures merged == Merged(axis, Grouped(axis, [], points))
  {
    var groups: seq<Group> := [];
    for i := 0 to |points|
      invariant Made(axis, groups)
      invariant Grouped(axis, groups, points[i..]) == Grouped(axis, [], points)
    {
      assert points[i..][1..] == points[i + 1..];
      assert points[i] in points;
      groups := Insert(axis, groups, points[i] - {axis}, points[i][axis]);
    }
    merged := Merged(axis, groups);
  }

  // ----- driver calls -----

  /** A call holds every knob but the axis; the machine type is an argument of its own. */
  function CallWith(x: Experiment, off: Cfg, values: seq<string>, reps: nat, interleave: bool): Call {
    var cfg := x.fixed + off;
    Call(x.axis, x.defaults + (cfg - {x.axis, INSTANCE}), values, reps, interleave,
         if x.axis != INSTANCE && INSTANCE in cfg then cfg[INSTANCE] else x.instance)
  }

  function CallFor(x: Experiment, p: Cfg, reps: nat, interleave: bool): Call
    requires x.axis in p
  {
    CallWith(x, p - {x.axis}, Split(p[x.axis]), reps, interleave)
  }

  function CallsFor(x: Experiment, points: seq<Cfg>, reps: nat, interleave: bool): seq<Call>
    requires forall p <- points :: x.axis in p
  {
    if points == [] then []
    else
      assert points[0] in points;
      [CallFor(x, points[0], reps, interleave)] + CallsFor(x, points[1..], reps, interleave)
  }

  /** The calls of one invocation on the given points. */
  function Calls(x: Experiment, points: seq<Cfg>, reps: nat): seq<Call>
    requires forall p <- points :: x.axis in p
  {
    if x.interleave then CallsFor(x, Merged(x.axis, Grouped(x.axis, [], points)), reps, true)
    else CallsFor(x, points, reps, false)
  }

  function Invoked(s: Session, calls: seq<Call>, bench: Bench): Session
    decreases |calls|
  {
    if calls == [] then s
    else Invoked(Swept(s.(built := None), calls[0], Plan(calls[0]), bench), calls[1..], bench)
  }

  /** The point loop; nothing is run and `None` comes back when a filter matches no point. */
  method Run(x: Experiment, only: Option<(string, string)>, reps: nat, s: Session, bench: Bench)
    returns (r: Option<Session>)
    requires x.Valid()
    ensures
      var points := Chosen(x, only);
      r == if only.Some? && points == [] then None else Some(Invoked(s, Calls(x, points, reps), bench))
  {
    var points := Chosen(x, only);
    if only.Some? && points == [] {
      return None;
    }
    var merged := points;
    if x.interleave {
      merged := Regroup(x.axis, points);
    }
    var calls := CallsFor(x, merged, reps, x.interleave);
    var session := s;
    for i := 0 to |calls|
      invariant Invoked(session, calls[i..], bench) == Invoked(s, calls, bench)
    {
      assert calls[i..][1..] == calls[i + 1..];
      var driver := new Driver(session);
      driver.Sweep(calls[i], bench);
      session := driver.State();
    }
    r := Some(session);
  }
}
