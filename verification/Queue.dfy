/**
 The interleaved queue: it calls each experiment for one point at a time with a growing number
 of reps, and relies on the CSVs to make every such call one new run.
 */
module Queue {
  import opened Folds
  import opened Options
  import opened Sweeps
  import opened Experiments

  /** A queued experiment: the group it belongs to, its reps, and the bench behind it. */
  datatype Member = Member(x: Experiment, group: nat, reps: nat, bench: Bench)

  /** A run of one of the members. */
  datatype Ticket = Ticket(member: nat, key: Key)

  /** Each member's own CSV and runs, and all runs in the order they were executed. */
  datatype State = State(sessions: seq<Session>, log: seq<Ticket>)

  /** One call the queue makes: reps 1 to `rep` of point `i` of a member. */
  datatype Slot = Slot(rep: nat, i: nat, member: nat)

  predicate Valid(ms: seq<Member>) { forall m :: 0 <= m < |ms| ==> ms[m].x.Valid() }

  predicate Due(ms: seq<Member>, group: nat, slot: Slot) {
    && slot.member < |ms| && ms[slot.member].group == group
    && 1 <= slot.rep <= ms[slot.member].reps && slot.i < |ms[slot.member].x.points|
  }

  function Tag(member: nat, keys: seq<Key>): seq<Ticket> {
    if keys == [] then [] else [Ticket(member, keys[0])] + Tag(member, keys[1..])
  }

  /** The runs a session made since it had made `n`. */
  function Since(s: Session, n: nat): seq<Key> {
    var all := RanKeys(s.ran);
    if n <= |all| then all[n..] else []
  }

  /** The member's experiment is invoked on some of its points. */
  function RunPoints(ms: seq<Member>, q: State, member: nat, points: seq<Cfg>, reps: nat): (q': State)
    requires member < |ms| == |q.sessions| && forall p <- points :: ms[member].x.axis in p
    ensures |q'.sessions| == |q.sessions|
  {
    var m, s := ms[member], q.sessions[member];
    var s' := Invoked(s, Calls(m.x, points, reps), m.bench);
    State(q.sessions[member := s'], q.log + Tag(member, Since(s', |RanKeys(s.ran)|)))
  }

  function RunAll(ms: seq<Member>, q: State, member: nat): State {
    if Valid(ms) && member < |ms| == |q.sessions|
    then RunPoints(ms, q, member, ms[member].x.points, ms[member].reps)
    else q
  }

  /** The points a filter on the axis value of point `i` leaves. */
  function PointsAt(x: Experiment, i: nat): (points: seq<Cfg>)
    requires x.Valid() && i < |x.points|
    ensures forall p <- points :: p in x.points
  {
    assert x.points[i] in x.points;
    Chosen(x, Some((x.axis, x.points[i][x.axis])))
  }

  /** The slot names a point of a member. */
  predicate Names(ms: seq<Member>, slot: Slot) { slot.member < |ms| && slot.i < |ms[slot.member].x.points| }

  /** One queue step; a slot that names no point is no step. */
  function RunSlot(ms: seq<Member>, q: State, slot: Slot): (q': State)
    ensures |q'.sessions| == |q.sessions|
  {
    if Valid(ms) && |ms| == |q.sessions| && Names(ms, slot)
    then RunPoints(ms, q, slot.member, PointsAt(ms[slot.member].x, slot.i), slot.rep)
    else q
  }

  function Stepper(ms: seq<Member>): (State, Slot) -> State { (q: State, slot: Slot) => RunSlot(ms, q, slot) }

  function RunSlots(ms: seq<Member>, q: State, slots: seq<Slot>): State { Fold(Stepper(ms), q, slots) }

  // ----- the order of the calls -----

  /** Point `i` at rep `k`: every member that has them, in queue order. */
  function DueAt(ms: seq<Member>, group: nat, k: nat, i: nat, n: nat): seq<Slot> {
    if n == 0 then []
    else DueAt(ms, group, k, i, n - 1) + if Due(ms, group, Slot(k, i, n - 1)) then [Slot(k, i, n - 1)] else []
  }

  function Round(ms: seq<Member>, group: nat, k: nat, n: nat): seq<Slot> {
    if n == 0 then [] else Round(ms, group, k, n - 1) + DueAt(ms, group, k, n - 1, |ms|)
  }

  function Longest(ms: seq<Member>, group: nat, n: nat): (most: nat)
    requires n <= |ms|
    ensures forall m :: 0 <= m < n && ms[m].group == group ==> |ms[m].x.points| <= most
  {
    if n == 0 then 0
    else
      var rest, here := Longest(ms, group, n - 1), |ms[n - 1].x.points|;
      if ms[n - 1].group == group && rest < here then here else rest
  }

  function Most(ms: seq<Member>, group: nat, n: nat): (most: nat)
    requires n <= |ms|
    ensures forall m :: 0 <= m < n && ms[m].group == group ==> ms[m].reps <= most
  {
    if n == 0 then 0
    else
      var rest, here := Most(ms, group, n - 1), ms[n - 1].reps;
      if ms[n - 1].group == group && rest < here then here else rest
  }

  function Rounds(ms: seq<Member>, group: nat, n: nat): seq<Slot> {
    if n == 0 then [] else Rounds(ms, group, n - 1) + Round(ms, group, n, Longest(ms, group, |ms|))
  }

  function Schedule(ms: seq<Member>, group: nat): seq<Slot> { Rounds(ms, group, Most(ms, group, |ms|)) }

  lemma {:induction false} DueAtMembers(ms: seq<Member>, group: nat, k: nat, i: nat, n: nat, slot: Slot)
    ensures slot in DueAt(ms, group, k, i, n)
       <==> Due(ms, group, slot) && slot.rep == k && slot.i == i && slot.member < n
  {
    if n > 0 {
      DueAtMembers(ms, group, k, i, n - 1, slot);
    }
  }

  lemma DueAtNames(ms: seq<Member>, group: nat, k: nat, i: nat, slots: seq<Slot>, j: nat)
    requires slots == DueAt(ms, group, k, i, |ms|) && j < |slots|
    ensures Names(ms, slots[j])
  {
    DueAtMembers(ms, group, k, i, |ms|, slots[j]);
  }

  lemma OneMoreSlot(ms: seq<Member>, start: State, slots: seq<Slot>, j: nat, now: State, next: State)
    requires j < |slots| && now == RunSlots(ms, start, slots[..j]) && next == RunSlot(ms, now, slots[j])
    ensures next == RunSlots(ms, start, slots[..j + 1])
  {
    FoldOneMore(Stepper(ms), start, slots[..j], slots[j]);
    assert slots[..j + 1] == slots[..j] + [slots[j]];
  }

  // ----- the queue itself -----

  class Runner {
    var state: State

    constructor (q: State)
      ensures state == q
    {
      state := q;
    }

    /** One experiment invocation; without a filter it covers every point. */
    method RunOne(ms: seq<Member>, member: nat, only: Option<(string, string)>, reps: nat)
      requires Valid(ms) && member < |ms| == |state.sessions|
      requires only.Some? ==> Chosen(ms[member].x, only) != []
      modifies this
      ensures state == RunPoints(ms, old(state), member, Chosen(ms[member].x, only), reps)
    {
      var s := state.sessions[member];
      var r := Run(ms[member].x, only, reps, s, ms[member].bench);
      state := State(state.sessions[member := r.value],
                     state.log + Tag(member, Since(r.value, |RanKeys(s.ran)|)));
    }

    method RunAt(ms: seq<Member>, slot: Slot)
      requires Valid(ms) && |ms| == |state.sessions| && Names(ms, slot)
      modifies this
      ensures |state.sessions| == |ms| && state == RunSlot(ms, old(state), slot)
    {
      var x := ms[slot.member].x;
      AxisFilter(x, slot.i);
      RunOne(ms, slot.member, Some((x.axis, x.points[slot.i][x.axis])), slot.rep);
    }

    /** The due members, one call each. */
    method RunDue(ms: seq<Member>, due: seq<Slot>)
      requires Valid(ms) && |ms| == |state.sessions| && forall j :: 0 <= j < |due| ==> Names(ms, due[j])
      modifies this
      ensures |state.sessions| == |ms| && state == RunSlots(ms, old(state), due)
    {
      for j := 0 to |due|
        invariant |ms| == |state.sessions|
        invariant state == RunSlots(ms, old(state), due[..j])
      {
        ghost var before := state;
        RunAt(ms, due[j]);
        OneMoreSlot(ms, old(state), due, j, before, state);
      }
      assert due[..|due|] == due;
    }

    /** One rep, point by point across the members of the group. */
    method RunRound(ms: seq<Member>, group: nat, k: nat, longest: nat)
      requires Valid(ms) && |ms| == |state.sessions|
      modifies this
      ensures |state.sessions| == |ms| && state == RunSlots(ms, old(state), Round(ms, group, k, longest))
    {
      for i := 0 to longest
        invariant |ms| == |state.sessions|
        invariant state == RunSlots(ms, old(state), Round(ms, group, k, i))
      {
        var due := DueAt(ms, group, k, i, |ms|);
        forall j | 0 <= j < |due| ensures Names(ms, due[j]) {
          DueAtNames(ms, group, k, i, due, j);
        }
        RunDue(ms, due);
        FoldConcat(Stepper(ms), old(state), Round(ms, group, k, i), due);
      }
    }

    method RunGroup(ms: seq<Member>, group: nat)
      requires Valid(ms) && |ms| == |state.sessions|
      modifies this
      ensures |state.sessions| == |ms| && state == RunSlots(ms, old(state), Schedule(ms, group))
    {
      var most, longest := Most(ms, group, |ms|), Longest(ms, group, |ms|);
      for k := 1 to most + 1
        invariant |ms| == |state.sessions|
        invariant state == RunSlots(ms, old(state), Rounds(ms, group, k - 1))
      {
        RunRound(ms, group, k, longest);
        FoldConcat(Stepper(ms), old(state), Rounds(ms, group, k - 1), Round(ms, group, k, longest));
      }
    }

    /** All groups one after another, then the pass over whole experiments that only plots. */
    method RunQueue(ms: seq<Member>, groups: nat)
      requires Valid(ms) && |ms| == |state.sessions|
      modifies this
      ensures state == Final(ms, RunGroups(ms, old(state), groups), |ms|)
    {
      ghost var start := state;
      for g := 0 to groups
        invariant |ms| == |state.sessions|
        invariant state == RunGroups(ms, start, g)
      {
        RunGroup(ms, g);
      }
      ghost var after := state;
      for m := 0 to |ms|
        invariant |ms| == |state.sessions|
        invariant state == Final(ms, after, m)
      {
        RunOne(ms, m, None, ms[m].reps);
      }
    }
  }

  lemma AxisFilter(x: Experiment, i: nat)
    requires x.Valid() && i < |x.points|
    ensures x.points[i] in PointsAt(x, i)
  {
    assert x.points[i] in x.points;
    FilterMembers((p: Cfg) => Has(x, p, x.axis, x.points[i][x.axis]), x.points, x.points[i]);
  }

  function RunGroups(ms: seq<Member>, q: State, groups: nat): State {
    if groups == 0 then q
    else RunSlots(ms, RunGroups(ms, q, groups - 1), Schedule(ms, groups - 1))
  }

  /** The last pass: every experiment once more with all points and all its reps. */
  function Final(ms: seq<Member>, q: State, n: nat): State {
    if n == 0 then q else RunAll(ms, Final(ms, q, n - 1), n - 1)
  }
}
