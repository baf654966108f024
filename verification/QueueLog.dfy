/** In which order the queue's runs stand in its log, on CSVs of any contents and columns. */
module QueueLog {
  import opened Folds
  import opened Options
  import opened Sweeps
  import opened Experiments
  import opened ExperimentKnobs
  import opened Queue
  import opened QueueRuns
  import QueueOrder

  // ----- keys of runs, place by place -----

  lemma {:induction false} RanKeyAt(ran: seq<Executed>, i: nat)
    requires i < |ran|
    ensures |RanKeys(ran)| == |ran| && RanKeys(ran)[i] == ran[i].key
  {
    RanKeysSize(ran[..|ran| - 1]);
    if i < |ran| - 1 {
      RanKeyAt(ran[..|ran| - 1], i);
    }
  }

  lemma {:induction false} TagAt(member: nat, keys: seq<Key>, i: nat)
    requires i < |keys|
    ensures |Tag(member, keys)| == |keys| && Tag(member, keys)[i] == Ticket(member, keys[i])
  {
    if i > 0 {
      TagAt(member, keys[1..], i - 1);
    } else {
      TagLength(member, keys);
    }
  }

  lemma {:induction false} TagLength(member: nat, keys: seq<Key>)
    ensures |Tag(member, keys)| == |keys|
  {
    if keys != [] {
      TagLength(member, keys[1..]);
    }
  }

  // ----- which call a run is of -----

  /**
   The run is one that the call asks for: one of the axis values of a point with the slot's entry
   on the axis, up to the slot's rep, with the point's knobs.
   */
  ghost predicate FromSlot(ms: seq<Member>, slot: Slot, t: Ticket) {
    && slot.member < |ms| && t.member == slot.member && slot.i < |ms[slot.member].x.points|
    && exists p, cfg, instance :: OfPoint(ms[slot.member].x, slot, t.key, p, cfg, instance)
  }

  ghost predicate OfPoint(x: Experiment, slot: Slot, key: Key, p: Cfg, cfg: Cfg, instance: string)
    requires slot.i < |x.points|
  {
    && p in x.points && x.axis in p && x.axis in x.points[slot.i] && p[x.axis] == x.points[slot.i][x.axis]
    && RunFor(x, p, slot.rep, key.value, key, cfg, instance)
  }

  lemma FilteredPoint(x: Experiment, i: nat, p: Cfg)
    requires x.Valid() && i < |x.points| && p in PointsAt(x, i)
    ensures p in x.points && x.axis in p && x.axis in x.points[i] && p[x.axis] == x.points[i][x.axis]
  {
    assert x.points[i] in x.points;
    FilterMembers((q: Cfg) => Has(x, q, x.axis, x.points[i][x.axis]), x.points, p);
  }

  /** A run that a call starts is of its slot. */
  lemma StartedFromSlot(ms: seq<Member>, s: Session, slot: Slot, e: Executed)
    requires Valid(ms) && Names(ms, slot)
    requires
      var m := ms[slot.member];
      var s' := Invoked(s, Calls(m.x, PointsAt(m.x, slot.i), slot.rep), m.bench);
      s.ran <= s'.ran && e in s'.ran[|s.ran|..]
    ensures FromSlot(ms, slot, Ticket(slot.member, e.key))
  {
    var m := ms[slot.member];
    var p, v := StartedSettings(s, m.x, PointsAt(m.x, slot.i), slot.rep, m.bench, e);
    FilteredPoint(m.x, slot.i, p);
    assert OfPoint(m.x, slot, e.key, p, e.cfg, e.instance);
  }

  /** What a call adds to the log is of its slot. */
  ghost function Origin(ms: seq<Member>): (Slot, Ticket) -> bool { (slot: Slot, t: Ticket) => FromSlot(ms, slot, t) }

  /** Nothing is said here about the order within a call. */
  function AnyOrder(): (Slot, Ticket, Ticket) -> bool { (slot: Slot, t: Ticket, t': Ticket) => true }

  /** The keys behind the ones there were are those of the runs behind the ones there were. */
  lemma NewKeyAt(s: Session, s': Session, j: nat)
    requires s.ran <= s'.ran && j < |Since(s', |RanKeys(s.ran)|)|
    ensures |s.ran| + j < |s'.ran| && Since(s', |RanKeys(s.ran)|)[j] == s'.ran[|s.ran| + j].key
    ensures s'.ran[|s.ran| + j] in s'.ran[|s.ran|..]
  {
    RanKeysSize(s.ran);
    RanKeysSize(s'.ran);
    RanKeyAt(s'.ran, |s.ran| + j);
    assert s'.ran[|s.ran|..][j] == s'.ran[|s.ran| + j];
  }

  lemma TaggedFromSlot(ms: seq<Member>, s: Session, slot: Slot, s': Session, calls: seq<Call>, j: nat)
    requires Valid(ms) && Names(ms, slot)
    requires calls == Calls(ms[slot.member].x, PointsAt(ms[slot.member].x, slot.i), slot.rep)
    requires s' == Invoked(s, calls, ms[slot.member].bench) && j < |Since(s', |RanKeys(s.ran)|)|
    ensures FromSlot(ms, slot, Ticket(slot.member, Since(s', |RanKeys(s.ran)|)[j]))
  {
    InvokedAsked(s, calls, ms[slot.member].bench);
    NewKeyAt(s, s', j);
    StartedFromSlot(ms, s, slot, s'.ran[|s.ran| + j]);
  }

  lemma SlotLogged(ms: seq<Member>, q: State, slot: Slot)
    requires Valid(ms) && |ms| == |q.sessions| && Names(ms, slot)
    ensures NewOf(Origin(ms), AnyOrder(), q.log, slot, RunSlot(ms, q, slot).log)
  {
    var m, s := ms[slot.member], q.sessions[slot.member];
    var calls := Calls(m.x, PointsAt(m.x, slot.i), slot.rep);
    var s' := Invoked(s, calls, m.bench);
    var keys := Since(s', |RanKeys(s.ran)|);
    TagLength(slot.member, keys);
    var log' := q.log + Tag(slot.member, keys);
    assert RunSlot(ms, q, slot).log == log';
    forall j: nat | |q.log| <= j < |log'| ensures FromSlot(ms, slot, log'[j]) {
      TagAt(slot.member, keys, j - |q.log|);
      TaggedFromSlot(ms, s, slot, s', calls, j - |q.log|);
    }
  }

  // ----- the whole log -----

  function LogOf(): State -> seq<Ticket> { (q: State) => q.log }

  function Fitting(ms: seq<Member>): State -> bool { (q: State) => |ms| == |q.sessions| }

  lemma SlotsPlaced(ms: seq<Member>, q: State, slots: seq<Slot>) returns (at: seq<nat>)
    requires Valid(ms) && |ms| == |q.sessions| && forall slot <- slots :: Names(ms, slot)
    ensures StepsOf(Origin(ms), AnyOrder(), slots, q.log, RunSlots(ms, q, slots).log, at)
  {
    forall q', slot | slot in slots
      ensures StepLogs(Stepper(ms), LogOf(), Origin(ms), AnyOrder(), Fitting(ms), q', slot)
    {
      if Fitting(ms)(q') {
        SlotLogged(ms, q', slot);
      }
    }
    at := FoldLogs(Stepper(ms), q, slots, LogOf(), Origin(ms), AnyOrder(), Fitting(ms));
  }

  /** By group, and within a group by rep, point and member. */
  predicate Earlier(ms: seq<Member>, a: Slot, b: Slot)
    requires a.member < |ms| && b.member < |ms|
  {
    || ms[a.member].group < ms[b.member].group
    || (&& ms[a.member].group == ms[b.member].group
        && (|| a.rep < b.rep
            || (a.rep == b.rep && a.i < b.i)
            || (a.rep == b.rep && a.i == b.i && a.member < b.member)))
  }

  /** A rep of a point of a member of one of the groups. */
  predicate IsDue(ms: seq<Member>, groups: nat, slot: Slot) {
    && slot.member < |ms| && ms[slot.member].group < groups
    && 1 <= slot.rep <= ms[slot.member].reps && slot.i < |ms[slot.member].x.points|
  }

  lemma SlotAt(ms: seq<Member>, groups: nat, j: nat)
    requires j < |AllSlots(ms, groups)|
    ensures IsDue(ms, groups, AllSlots(ms, groups)[j])
  {
    AllSlotsMembers(ms, groups, AllSlots(ms, groups)[j]);
  }

  lemma ScheduledAt(ms: seq<Member>, group: nat, j: nat, k: nat)
    requires j < |Schedule(ms, group)| && k < |Schedule(ms, group)|
    ensures
      var a, b := Schedule(ms, group)[j], Schedule(ms, group)[k];
      && a.member < |ms| && ms[a.member].group == group && b.member < |ms| && ms[b.member].group == group
      && (j < k ==> Earlier(ms, a, b))
  {
    QueueOrder.ScheduleIsLexicographic(ms, group);
    assert Schedule(ms, group)[j] in Schedule(ms, group) && Schedule(ms, group)[k] in Schedule(ms, group);
  }

  lemma {:induction false} SlotsInOrder(ms: seq<Member>, groups: nat, j: nat, k: nat)
    requires j < k < |AllSlots(ms, groups)|
    ensures
      var a, b := AllSlots(ms, groups)[j], AllSlots(ms, groups)[k];
      a.member < |ms| && b.member < |ms| && Earlier(ms, a, b)
  {
    var n := |AllSlots(ms, groups - 1)|;
    if k < n {
      SlotsInOrder(ms, groups - 1, j, k);
    } else {
      ScheduledAt(ms, groups - 1, if j < n then 0 else j - n, k - n);
      if j < n {
        SlotAt(ms, groups - 1, j);
      }
    }
  }

  lemma DueInOrder(ms: seq<Member>, groups: nat, slots: seq<Slot>, j: nat, k: nat)
    requires slots == AllSlots(ms, groups) && j <= k < |slots|
    ensures IsDue(ms, groups, slots[j]) && IsDue(ms, groups, slots[k])
    ensures slots[j] == slots[k] || Earlier(ms, slots[j], slots[k])
  {
    SlotAt(ms, groups, j);
    SlotAt(ms, groups, k);
    if j < k {
      SlotsInOrder(ms, groups, j, k);
    }
  }

  lemma RunsPlaced(ms: seq<Member>, q: State, groups: nat, log: seq<Ticket>) returns (at: seq<nat>)
    requires Valid(ms) && |ms| == |q.sessions| && log == RunGroups(ms, q, groups).log
    ensures StepsOf(Origin(ms), AnyOrder(), AllSlots(ms, groups), q.log, log, at)
  {
    GroupsAreSlots(ms, q, groups);
    forall slot | slot in AllSlots(ms, groups) ensures Names(ms, slot) {
      AllSlotsMembers(ms, groups, slot);
    }
    at := SlotsPlaced(ms, q, AllSlots(ms, groups));
  }

  /**
   Whatever the CSVs hold, the queue's runs stand in the log by group, and within a group by rep,
   point and member of the calls they are of; each is of a call that is due.
   */
  lemma LogInOrder(ms: seq<Member>, q: State, groups: nat, log: seq<Ticket>, j: nat, k: nat)
    returns (a: Slot, b: Slot)
    requires Valid(ms) && |ms| == |q.sessions| && log == RunGroups(ms, q, groups).log && |q.log| <= j <= k < |log|
    ensures IsDue(ms, groups, a) && IsDue(ms, groups, b) && (a == b || Earlier(ms, a, b))
    ensures q.log <= log && FromSlot(ms, a, log[j]) && FromSlot(ms, b, log[k])
  {
    var slots := AllSlots(ms, groups);
    var at := RunsPlaced(ms, q, groups, log);
    var x, y := TurnsAt(Origin(ms), AnyOrder(), slots, q.log, log, at, j, k);
    DueInOrder(ms, groups, slots, x, y);
    a, b := slots[x], slots[y];
  }
}
