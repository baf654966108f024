/** Which points an invocation is about, and how the interleaved ones are put together. */
module ExperimentPoints {
  import opened Folds
  import opened Options
  import opened Sweeps
  import opened Experiments
  import opened SweepOrder

  /**
   A filter leaves the points whose own value of the knob, without one the fixed value, and
   without that the word None, is the wanted one; they stay in their order.
   */
  lemma ChosenAre(x: Experiment, knob: string, value: string) returns (at: seq<nat>)
    ensures Rises(at) && |at| == |Chosen(x, Some((knob, value)))|
    ensures forall j :: 0 <= j < |at| ==> at[j] < |x.points| && Chosen(x, Some((knob, value)))[j] == x.points[at[j]]
    ensures forall i: nat | i < |x.points| ::
      i in at <==> value == if knob in x.points[i] then x.points[i][knob]
                            else if knob in x.fixed then x.fixed[knob] else "None"
  {
    var keep := (p: Cfg) => Has(x, p, knob, value);
    at := FilterPlaces(keep, x.points);
    forall i: nat | i < |x.points| ensures i in at <==> Has(x, x.points[i], knob, value) {
      assert KeepsAt(keep, x.points, i) <==> Has(x, x.points[i], knob, value);
    }
  }

  // ----- the groups -----

  /** The group holds the axis values of the points at these places, which agree in every other knob. */
  predicate Holds(axis: string, points: seq<Cfg>, k: nat, g: Group, at: seq<nat>)
    requires k <= |points| && forall p <- points :: axis in p
  {
    && Rises(at) && at != [] && |at| == |g.values|
    && (forall i :: 0 <= i < |at| ==>
          at[i] < k && points[at[i]] - {axis} == g.off && points[at[i]][axis] == g.values[i])
    && forall i: nat | i < k :: points[i] - {axis} == g.off ==> i in at
  }

  predicate EachHolds(axis: string, points: seq<Cfg>, k: nat, groups: seq<Group>, places: seq<seq<nat>>)
    requires k <= |points| && forall p <- points :: axis in p
  {
    |groups| == |places| && forall j :: 0 <= j < |groups| ==> Holds(axis, points, k, groups[j], places[j])
  }

  /** Each list of places begins behind where the ones before it begin. */
  predicate FirstsRise(places: seq<seq<nat>>) {
    && (forall j :: 0 <= j < |places| ==> places[j] != [])
    && forall j, j' :: 0 <= j < j' < |places| ==> places[j][0] < places[j'][0]
  }

  predicate HasGroup(groups: seq<Group>, off: Cfg) { exists j :: 0 <= j < |groups| && groups[j].off == off }

  predicate AllGrouped(axis: string, points: seq<Cfg>, k: nat, groups: seq<Group>)
    requires k <= |points|
  {
    forall i: nat | i < k :: HasGroup(groups, points[i] - {axis})
  }

  predicate AllHold(axis: string, points: seq<Cfg>, k: nat, groups: seq<Group>, places: seq<seq<nat>>)
    requires k <= |points| && forall p <- points :: axis in p
  {
    EachHolds(axis, points, k, groups, places) && FirstsRise(places) && AllGrouped(axis, points, k, groups)
  }

  /** The first group with these knobs, or behind the last one. */
  predicate FoundAt(groups: seq<Group>, off: Cfg, j: nat) {
    && j <= |groups| && (forall i :: 0 <= i < j ==> groups[i].off != off)
    && (j < |groups| ==> groups[j].off == off)
  }

  function InsertedAt(groups: seq<Group>, off: Cfg, value: string, j: nat): seq<Group>
    requires j <= |groups|
  {
    if j == |groups| then groups + [Group(off, [value])] else groups[j := Group(off, groups[j].values + [value])]
  }

  lemma InsertedLater(groups: seq<Group>, off: Cfg, value: string, j: nat)
    requires groups != [] && groups[0].off != off && FoundAt(groups[1..], off, j)
    ensures FoundAt(groups, off, j + 1)
    ensures InsertedAt(groups, off, value, j + 1) == [groups[0]] + InsertedAt(groups[1..], off, value, j)
  {
  }

  lemma {:induction false} InsertAt(axis: string, groups: seq<Group>, off: Cfg, value: string) returns (j: nat)
    requires Made(axis, groups) && axis !in off
    ensures FoundAt(groups, off, j) && Insert(axis, groups, off, value) == InsertedAt(groups, off, value, j)
  {
    if groups == [] || groups[0].off == off {
      j := 0;
    } else {
      j := InsertAt(axis, groups[1..], off, value);
      InsertedLater(groups, off, value, j);
      j := j + 1;
    }
  }

  lemma {:induction false} GroupedMore(axis: string, groups: seq<Group>, points: seq<Cfg>, p: Cfg)
    requires Made(axis, groups) && (forall q <- points :: axis in q) && axis in p
    ensures (forall q <- points + [p] :: axis in q)
    ensures Grouped(axis, groups, points + [p])
         == Insert(axis, Grouped(axis, groups, points), p - {axis}, p[axis])
    decreases |points|
  {
    if points == [] {
      assert points + [p] == [p] && [p][1..] == [];
    } else {
      assert points[0] in points && (points + [p])[1..] == points[1..] + [p];
      GroupedMore(axis, Insert(axis, groups, points[0] - {axis}, points[0][axis]), points[1..], p);
    }
  }

  /** One more point is no other group's. */
  lemma HoldsOn(axis: string, points: seq<Cfg>, k: nat, g: Group, at: seq<nat>)
    requires k < |points| && (forall p <- points :: axis in p) && Holds(axis, points, k, g, at)
    requires points[k] - {axis} != g.off
    ensures Holds(axis, points, k + 1, g, at)
  {
  }

  lemma HoldsMore(axis: string, points: seq<Cfg>, k: nat, g: Group, at: seq<nat>, g': Group, at': seq<nat>)
    requires k < |points| && (forall p <- points :: axis in p) && Holds(axis, points, k, g, at)
    requires points[k] - {axis} == g.off && at' == at + [k] && g' == Group(g.off, g.values + [points[k][axis]])
    ensures Holds(axis, points, k + 1, g', at')
  {
    forall i: nat | i < k + 1 && points[i] - {axis} == g.off ensures i in at' {
      assert i == k || i in at;
    }
  }

  lemma HoldsNew(axis: string, points: seq<Cfg>, k: nat, groups: seq<Group>, places: seq<seq<nat>>, g: Group)
    requires k < |points| && (forall p <- points :: axis in p) && AllHold(axis, points, k, groups, places)
    requires g == Group(points[k] - {axis}, [points[k][axis]])
    requires forall j :: 0 <= j < |groups| ==> groups[j].off != g.off
    ensures Holds(axis, points, k + 1, g, [k])
  {
  }

  lemma FirstBelow(axis: string, points: seq<Cfg>, k: nat, groups: seq<Group>, places: seq<seq<nat>>, j: nat)
    requires k <= |points| && (forall p <- points :: axis in p) && EachHolds(axis, points, k, groups, places)
    requires j < |places|
    ensures places[j] != [] && places[j][0] < k
  {
    assert Holds(axis, points, k, groups[j], places[j]);
  }

  lemma StillGrouped(axis: string, points: seq<Cfg>, k: nat, groups: seq<Group>, groups': seq<Group>)
    requires k < |points| && AllGrouped(axis, points, k, groups) && HasGroup(groups', points[k] - {axis})
    requires |groups| <= |groups'| && forall j :: 0 <= j < |groups| ==> groups'[j].off == groups[j].off
    ensures AllGrouped(axis, points, k + 1, groups')
  {
    forall i: nat | i < k ensures HasGroup(groups', points[i] - {axis}) {
      var j :| 0 <= j < |groups| && groups[j].off == points[i] - {axis};
      assert groups'[j].off == points[i] - {axis};
    }
  }

  lemma NewFirst(axis: string, points: seq<Cfg>, k: nat, groups: seq<Group>, places: seq<seq<nat>>)
    requires k < |points| && (forall p <- points :: axis in p) && AllHold(axis, points, k, groups, places)
    ensures FirstsRise(places + [[k]])
  {
    forall j | 0 <= j < |places| ensures places[j] != [] && places[j][0] < k {
      FirstBelow(axis, points, k, groups, places, j);
    }
  }

  lemma NewHolds(axis: string, points: seq<Cfg>, k: nat, groups: seq<Group>, places: seq<seq<nat>>, g: Group)
    requires k < |points| && (forall p <- points :: axis in p) && AllHold(axis, points, k, groups, places)
    requires Holds(axis, points, k + 1, g, [k]) && g.off == points[k] - {axis}
    requires forall j :: 0 <= j < |groups| ==> groups[j].off != g.off
    ensures EachHolds(axis, points, k + 1, groups + [g], places + [[k]])
  {
    forall i | 0 <= i < |groups| ensures Holds(axis, points, k + 1, groups[i], places[i]) {
      HoldsOn(axis, points, k, groups[i], places[i]);
    }
  }

  lemma NewGroup(axis: string, points: seq<Cfg>, k: nat, groups: seq<Group>, places: seq<seq<nat>>, g: Group)
    requires k < |points| && (forall p <- points :: axis in p) && AllHold(axis, points, k, groups, places)
    requires g == Group(points[k] - {axis}, [points[k][axis]])
    requires forall j :: 0 <= j < |groups| ==> groups[j].off != g.off
    ensures AllHold(axis, points, k + 1, groups + [g], places + [[k]])
  {
    HoldsNew(axis, points, k, groups, places, g);
    NewHolds(axis, points, k, groups, places, g);
    NewFirst(axis, points, k, groups, places);
    assert (groups + [g])[|groups|].off == g.off;
    StillGrouped(axis, points, k, groups, groups + [g]);
  }

  lemma SameFirsts(places: seq<seq<nat>>, j: nat, at: seq<nat>)
    requires FirstsRise(places) && j < |places| && at != [] && at[0] == places[j][0]
    ensures FirstsRise(places[j := at])
  {
  }

  lemma SameGroupHolds(axis: string, points: seq<Cfg>, k: nat, groups: seq<Group>, places: seq<seq<nat>>, j: nat,
                       g: Group, at: seq<nat>)
    requires k < |points| && (forall p <- points :: axis in p) && AllHold(axis, points, k, groups, places)
    requires j < |groups| && groups[j].off == points[k] - {axis} && Holds(axis, points, k + 1, g, at)
    ensures EachHolds(axis, points, k + 1, groups[j := g], places[j := at])
  {
    forall i | 0 <= i < |groups| && i != j ensures Holds(axis, points, k + 1, groups[i], places[i]) {
      OffsDiffer(axis, points, k, groups, places, i, j);
      HoldsOn(axis, points, k, groups[i], places[i]);
    }
  }

  lemma SameGroup(axis: string, points: seq<Cfg>, k: nat, groups: seq<Group>, places: seq<seq<nat>>, j: nat, g: Group)
    requires k < |points| && (forall p <- points :: axis in p) && AllHold(axis, points, k, groups, places)
    requires j < |groups| && groups[j].off == points[k] - {axis}
    requires g == Group(groups[j].off, groups[j].values + [points[k][axis]])
    ensures AllHold(axis, points, k + 1, groups[j := g], places[j := places[j] + [k]])
  {
    HoldsMore(axis, points, k, groups[j], places[j], g, places[j] + [k]);
    SameGroupHolds(axis, points, k, groups, places, j, g, places[j] + [k]);
    SameFirsts(places, j, places[j] + [k]);
    assert groups[j := g][j].off == g.off;
    StillGrouped(axis, points, k, groups, groups[j := g]);
  }

  lemma OnePointMore(axis: string, points: seq<Cfg>, k: nat, groups: seq<Group>, places: seq<seq<nat>>, off: Cfg,
                     value: string)
    returns (places': seq<seq<nat>>)
    requires k < |points| && (forall p <- points :: axis in p) && Made(axis, groups)
    requires axis !in off && off == points[k] - {axis} && axis in points[k] && value == points[k][axis]
    requires AllHold(axis, points, k, groups, places)
    ensures AllHold(axis, points, k + 1, Insert(axis, groups, off, value), places')
  {
    var j := InsertAt(axis, groups, off, value);
    if j == |groups| {
      NewGroup(axis, points, k, groups, places, Group(off, [value]));
      places' := places + [[k]];
    } else {
      places' := places[j := places[j] + [k]];
      SameGroup(axis, points, k, groups, places, j, Group(off, groups[j].values + [value]));
    }
  }

  lemma OffsDiffer(axis: string, points: seq<Cfg>, k: nat, groups: seq<Group>, places: seq<seq<nat>>, i: nat, j: nat)
    requires k <= |points| && (forall p <- points :: axis in p) && AllHold(axis, points, k, groups, places)
    requires i < |groups| && j < |groups| && i != j
    ensures groups[i].off != groups[j].off
  {
    assert Holds(axis, points, k, groups[i], places[i]) && Holds(axis, points, k, groups[j], places[j]);
    if groups[i].off == groups[j].off {
      SameStart(places[i], places[j]);
    }
  }

  lemma SameStart(a: seq<nat>, b: seq<nat>)
    requires Rises(a) && Rises(b) && a != [] && b != [] && (forall i :: i in a <==> i in b)
    ensures a[0] == b[0]
  {
    assert a[0] in b && b[0] in a;
  }

  lemma GroupedUpTo(axis: string, points: seq<Cfg>, k: nat, groups: seq<Group>)
    requires k < |points| && (forall p <- points :: axis in p)
    requires (forall p <- points[..k] :: axis in p) && groups == Grouped(axis, [], points[..k])
    ensures axis in points[k] && forall p <- points[..k + 1] :: axis in p
    ensures Grouped(axis, [], points[..k + 1]) == Insert(axis, groups, points[k] - {axis}, points[k][axis])
  {
    assert points[k] in points && points[..k + 1] == points[..k] + [points[k]];
    GroupedMore(axis, [], points[..k], points[k]);
  }

  lemma {:induction false} GroupsHold(axis: string, points: seq<Cfg>, k: nat)
    returns (groups: seq<Group>, places: seq<seq<nat>>)
    requires k <= |points| && forall p <- points :: axis in p
    ensures (forall p <- points[..k] :: axis in p) && groups == Grouped(axis, [], points[..k])
    ensures AllHold(axis, points, k, groups, places)
  {
    if k == 0 {
      groups, places := [], [];
    } else {
      groups, places := GroupsHold(axis, points, k - 1);
      GroupedUpTo(axis, points, k - 1, groups);
      var p := points[k - 1];
      places := OnePointMore(axis, points, k - 1, groups, places, p - {axis}, p[axis]);
      groups := Insert(axis, groups, p - {axis}, p[axis]);
    }
  }

  lemma {:induction false} MergedAt(axis: string, groups: seq<Group>, j: nat)
    requires Made(axis, groups) && j < |groups|
    ensures |Merged(axis, groups)| == |groups| && groups[j].values != []
    ensures Merged(axis, groups)[j] == groups[j].off[axis := Join(groups[j].values)]
  {
    assert groups[0] in groups;
    if j > 0 {
      MergedAt(axis, groups[1..], j - 1);
    } else if |groups| > 1 {
      MergedAt(axis, groups[1..], 0);
    } else {
      assert Merged(axis, groups[1..]) == [];
    }
  }

  /** A merged point stands for the points at these places: their knobs, and their axis values in order. */
  predicate StandsFor(axis: string, points: seq<Cfg>, merged: Cfg, at: seq<nat>) {
    && Rises(at) && at != []
    && (forall i: nat | i < |points| :: i in at <==> axis in points[i] && points[i] - {axis} == merged - {axis})
    && (forall i :: 0 <= i < |at| ==> at[i] < |points| && axis in points[at[i]])
    && axis in merged
    && merged[axis] == Join(seq(|at|, i requires 0 <= i < |at| && at[i] < |points| && axis in points[at[i]] =>
                                  points[at[i]][axis]))
  }

  lemma HoldsStands(axis: string, points: seq<Cfg>, g: Group, at: seq<nat>)
    requires (forall p <- points :: axis in p) && Holds(axis, points, |points|, g, at) && axis !in g.off
    ensures g.values != [] && StandsFor(axis, points, g.off[axis := Join(g.values)], at)
  {
    var merged := g.off[axis := Join(g.values)];
    assert merged - {axis} == g.off;
    assert g.values
        == seq(|at|, i requires 0 <= i < |at| && at[i] < |points| && axis in points[at[i]] => points[at[i]][axis]);
  }

  predicate Listed(places: seq<seq<nat>>, i: nat) { exists at <- places :: i in at }

  /**
   The interleaved calls are about one merged point for each set of points that agree in every
   knob but the axis, in the order in which the sets first appear; none is left out.
   */
  lemma MergedPoints(axis: string, points: seq<Cfg>) returns (places: seq<seq<nat>>)
    requires forall p <- points :: axis in p
    ensures |places| == |Merged(axis, Grouped(axis, [], points))|
    ensures forall j :: 0 <= j < |places| ==>
      StandsFor(axis, points, Merged(axis, Grouped(axis, [], points))[j], places[j])
    ensures FirstsRise(places)
    ensures forall i: nat | i < |points| :: Listed(places, i)
  {
    var groups: seq<Group>;
    groups, places := GroupsHold(axis, points, |points|);
    assert points[..|points|] == points;
    if groups != [] {
      MergedAt(axis, groups, 0);
    }
    forall j | 0 <= j < |places| ensures StandsFor(axis, points, Merged(axis, groups)[j], places[j]) {
      MergedAt(axis, groups, j);
      assert groups[j] in groups;
      HoldsStands(axis, points, groups[j], places[j]);
    }
    forall i: nat | i < |points| ensures Listed(places, i) {
      assert HasGroup(groups, points[i] - {axis});
      var j :| 0 <= j < |groups| && groups[j].off == points[i] - {axis};
      assert Holds(axis, points, |points|, groups[j], places[j]) && places[j] in places;
    }
  }

  // ----- the calls, and the runs in their order -----

  lemma {:induction false} CallsForSize(x: Experiment, points: seq<Cfg>, reps: nat, interleave: bool)
    requires forall p <- points :: x.axis in p
    ensures |CallsFor(x, points, reps, interleave)| == |points|
  {
    if points != [] {
      assert points[0] in points;
      CallsForSize(x, points[1..], reps, interleave);
    }
  }

  /** The call is the point's. */
  predicate CallOf(x: Experiment, p: Cfg, reps: nat, interleave: bool, call: Call) {
    && x.axis in p && call.axis == x.axis && call.values == Split(p[x.axis])
    && call.reps == reps && call.interleave == interleave
  }

  lemma {:induction false} CallsForAt(x: Experiment, points: seq<Cfg>, reps: nat, interleave: bool, j: nat)
    requires (forall p <- points :: x.axis in p) && j < |points|
    ensures |CallsFor(x, points, reps, interleave)| == |points|
    ensures CallOf(x, points[j], reps, interleave, CallsFor(x, points, reps, interleave)[j])
  {
    CallsForSize(x, points, reps, interleave);
    assert points[0] in points;
    if j > 0 {
      CallsForAt(x, points[1..], reps, interleave, j - 1);
    }
  }

  /**
   There is one call a point, in order, for the values the point lists and as many reps as asked;
   or, interleaved, one a merged point.
   */
  lemma CallsAt(x: Experiment, points: seq<Cfg>, reps: nat, j: nat)
    requires (forall p <- points :: x.axis in p)
    requires j < if x.interleave then |Merged(x.axis, Grouped(x.axis, [], points))| else |points|
    ensures
      var about := if x.interleave then Merged(x.axis, Grouped(x.axis, [], points)) else points;
      && |Calls(x, points, reps)| == |about|
      && CallOf(x, about[j], reps, x.interleave, Calls(x, points, reps)[j])
  {
    if x.interleave {
      CallsForAt(x, Merged(x.axis, Grouped(x.axis, [], points)), reps, true, j);
    } else {
      CallsForAt(x, points, reps, false, j);
    }
  }

  /** One call of the driver, by a new process. */
  function Caller(bench: Bench): (Session, Call) -> Session {
    (s: Session, call: Call) => Swept(s.(built := None), call, Plan(call), bench)
  }

  lemma {:induction false} InvokedIsFold(s: Session, calls: seq<Call>, bench: Bench)
    ensures Invoked(s, calls, bench) == Fold(Caller(bench), s, calls)
    decreases |calls|
  {
    if calls != [] {
      var s1 := Caller(bench)(s, calls[0]);
      InvokedIsFold(s1, calls[1..], bench);
      FoldConcat(Caller(bench), s, [calls[0]], calls[1..]);
      assert [calls[0]] + calls[1..] == calls && [calls[0]][..0] == [];
      assert Fold(Caller(bench), s, [calls[0]]) == s1;
    }
  }

  function RanOf(): Session -> seq<Executed> { (s: Session) => s.ran }

  /** The run is an entry of the call's plan. */
  ghost function OfCall(): (Call, Executed) -> bool {
    (call: Call, e: Executed) => exists i: nat, r: nat :: IsEntry(call, e, i, r)
  }

  /** Both runs are entries, of which the call's sweep comes to the first one first. */
  ghost predicate Sooner(call: Call, e: Executed, e': Executed) {
    exists i: nat, r: nat, i': nat, r': nat :: EntriesInOrder(call, e, e', i, r, i', r')
  }

  predicate EntriesInOrder(call: Call, e: Executed, e': Executed, i: nat, r: nat, i': nat, r': nat) {
    && IsEntry(call, e, i, r) && IsEntry(call, e', i', r')
    && if call.interleave then r < r' || (r == r' && i < i') else i < i' || (i == i' && r < r')
  }

  ghost function InCall(): (Call, Executed, Executed) -> bool {
    (call: Call, e: Executed, e': Executed) => Sooner(call, e, e')
  }

  lemma CallLogs(s: Session, call: Call, bench: Bench)
    ensures NewOf(OfCall(), InCall(), s.ran, call, Caller(bench)(s, call).ran)
  {
    var s0 := s.(built := None);
    var _ := SweptPlaces(s0, call, Plan(call), bench);
    var ran := Caller(bench)(s, call).ran;
    forall j: nat | |s.ran| <= j < |ran| ensures OfCall()(call, ran[j]) {
      var i, r := RunEntry(s0, call, bench, j);
    }
    forall j, k | |s.ran| <= j < k < |ran| ensures InCall()(call, ran[j], ran[k]) {
      var i, r, i', r' := RunsInOrder(s0, call, bench, j, k);
      assert EntriesInOrder(call, ran[j], ran[k], i, r, i', r');
    }
  }

  lemma InvokedPlaces(s: Session, calls: seq<Call>, bench: Bench) returns (at: seq<nat>)
    ensures StepsOf(OfCall(), InCall(), calls, s.ran, Invoked(s, calls, bench).ran, at)
  {
    var fit := (q: Session) => true;
    InvokedIsFold(s, calls, bench);
    forall q, call | call in calls ensures StepLogs(Caller(bench), RanOf(), OfCall(), InCall(), fit, q, call) {
      CallLogs(q, call, bench);
    }
    at := FoldLogs(Caller(bench), s, calls, RanOf(), OfCall(), InCall(), fit);
  }

  lemma CallAt(calls: seq<Call>, e: Executed, c: nat)
    requires StepOf(OfCall(), calls, e, c)
    ensures c < |calls| && exists i: nat, r: nat :: IsEntry(calls[c], e, i, r)
  {
    assert OfCall()(calls[c], e);
  }

  lemma CallInTurn(calls: seq<Call>, e: Executed, e': Executed, c: nat, c': nat)
    requires InTurn(InCall(), calls, e, e', c, c')
    ensures c <= c' && c < |calls| && (c == c' ==> Sooner(calls[c], e, e'))
  {
    assert c == c' ==> InCall()(calls[c], e, e');
  }

  /**
   Of two runs an invocation starts, the one of the earlier call comes first, and within a call
   they are in the order of its sweep.
   */
  lemma InvokedInOrder(s: Session, calls: seq<Call>, bench: Bench, ran: seq<Executed>, j: nat, k: nat)
    returns (c: nat, c': nat)
    requires ran == Invoked(s, calls, bench).ran && |s.ran| <= j < k < |ran|
    ensures c <= c' < |calls|
    ensures exists i: nat, r: nat :: IsEntry(calls[c], ran[j], i, r)
    ensures exists i: nat, r: nat :: IsEntry(calls[c'], ran[k], i, r)
    ensures c == c' ==> Sooner(calls[c], ran[j], ran[k])
  {
    var at := InvokedPlaces(s, calls, bench);
    c, c' := TurnsAt(OfCall(), InCall(), calls, s.ran, ran, at, j, k);
    CallAt(calls, ran[j], c);
    CallAt(calls, ran[k], c');
    CallInTurn(calls, ran[j], ran[k], c, c');
  }
}
