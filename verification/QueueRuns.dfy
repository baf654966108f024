/** Which runs a failure-free interleaved queue executes, from any CSVs. */
module QueueRuns {
  import opened Folds
  import opened Worklist
  import opened Sweeps
  import opened Experiments
  import opened ExperimentRuns
  import opened Queue

  ghost function DoneAll(ms: seq<Member>, q: State): iset<Ticket> {
    iset t: Ticket | t.member < |ms| && t.member < |q.sessions|
                  && t.key in DoneSet(q.sessions[t.member].df, ms[t.member].x.Knobs())
  }

  /** In no CSV a new column undoes a done run; benches keep the query. */
  ghost predicate Fit(ms: seq<Member>, q: State) {
    && Valid(ms) && |ms| == |q.sessions|
    && forall m :: 0 <= m < |ms| ==> Ready(q.sessions[m].df, ms[m].x.Knobs()) && Faithful(ms[m].bench, ms[m].x.axis)
  }

  ghost predicate Advance(done: iset<Ticket>, done': iset<Ticket>, log: seq<Ticket>, log': seq<Ticket>,
      ts: seq<Ticket>) {
    done' == done + Members(ts) && log' == log + Missing(ts, done)
  }

  lemma AdvanceTwice(d0: iset<Ticket>, d1: iset<Ticket>, d2: iset<Ticket>,
                     l0: seq<Ticket>, l1: seq<Ticket>, l2: seq<Ticket>, a: seq<Ticket>, b: seq<Ticket>)
    requires Advance(d0, d1, l0, l1, a) && Advance(d1, d2, l1, l2, b)
    ensures Advance(d0, d2, l0, l2, a + b)
  {
    MissingTwice(a, b, d0, d1);
  }

  /** From `q` to `q'` exactly the missing runs of `ts` were executed, in order, and all are done. */
  ghost predicate Progress(ms: seq<Member>, q: State, q': State, ts: seq<Ticket>) {
    Fit(ms, q) && Fit(ms, q') && Advance(DoneAll(ms, q), DoneAll(ms, q'), q.log, q'.log, ts)
  }

  lemma ProgressTwice(ms: seq<Member>, q0: State, q1: State, q2: State, a: seq<Ticket>, b: seq<Ticket>)
    requires Progress(ms, q0, q1, a) && Progress(ms, q1, q2, b)
    ensures Progress(ms, q0, q2, a + b)
  {
    AdvanceTwice(DoneAll(ms, q0), DoneAll(ms, q1), DoneAll(ms, q2), q0.log, q1.log, q2.log, a, b);
  }

  lemma {:induction false} TagMissing(member: nat, keys: seq<Key>, d: iset<Key>, done: iset<Ticket>)
    requires forall key: Key :: key in d <==> Ticket(member, key) in done
    ensures Tag(member, Missing(keys, d)) == Missing(Tag(member, keys), done)
    decreases |keys|
  {
    if keys != [] {
      var key := keys[0];
      if key in d {
        TagMissing(member, keys[1..], d, done);
      } else {
        TagMissing(member, keys[1..], d + iset{key}, done + iset{Ticket(member, key)});
      }
    }
  }

  lemma {:induction false} TagMembers(member: nat, keys: seq<Key>, t: Ticket)
    ensures t in Tag(member, keys) <==> t.member == member && t.key in keys
  {
    if keys != [] {
      TagMembers(member, keys[1..], t);
      assert t.key in keys <==> t.key == keys[0] || t.key in keys[1..];
    }
  }

  lemma DoneAfter(ms: seq<Member>, q: State, q': State, member: nat, s': Session, keys: seq<Key>)
    requires Fit(ms, q) && member < |ms| && WorkedOff(q.sessions[member], s', ms[member].x.Knobs(), keys)
    requires q'.sessions == q.sessions[member := s']
    ensures DoneAll(ms, q') == DoneAll(ms, q) + Members(Tag(member, keys))
  {
    forall t: Ticket ensures t in DoneAll(ms, q') <==> t in DoneAll(ms, q) + Members(Tag(member, keys)) {
      TagMembers(member, keys, t);
    }
  }

  lemma RunPointsWorks(ms: seq<Member>, q: State, member: nat, points: seq<Cfg>, reps: nat)
    requires Fit(ms, q) && member < |ms| && ms[member].x.Known(points)
    ensures Progress(ms, q, RunPoints(ms, q, member, points, reps),
                     Tag(member, KeysAll(Calls(ms[member].x, points, reps))))
  {
    var m, s := ms[member], q.sessions[member];
    var calls := Calls(m.x, points, reps);
    var s', keys := Invoked(s, calls, m.bench), KeysAll(calls);
    InvocationWorksOff(s, m.x, points, reps, m.bench);
    DoneAfter(ms, q, RunPoints(ms, q, member, points, reps), member, s', keys);
    var d := DoneSet(s.df, m.x.Knobs());
    assert Since(s', |RanKeys(s.ran)|) == Missing(keys, d);
    TagMissing(member, keys, d, DoneAll(ms, q));
  }

  /** The runs one call of the queue asks for. */
  function SlotTickets(ms: seq<Member>, slot: Slot): seq<Ticket> {
    if Valid(ms) && Names(ms, slot)
    then Tag(slot.member, KeysAll(Calls(ms[slot.member].x, PointsAt(ms[slot.member].x, slot.i), slot.rep)))
    else []
  }

  function AllTickets(ms: seq<Member>, slots: seq<Slot>): seq<Ticket> {
    Flat((slot: Slot) => SlotTickets(ms, slot), slots)
  }

  lemma NoProgress(ms: seq<Member>, q: State)
    requires Fit(ms, q)
    ensures Progress(ms, q, q, [])
  {
    assert Members<Ticket>([]) == iset{};
  }

  lemma SlotWorks(ms: seq<Member>, q: State, slot: Slot)
    requires Fit(ms, q)
    ensures Progress(ms, q, RunSlot(ms, q, slot), SlotTickets(ms, slot))
  {
    if Names(ms, slot) {
      RunPointsWorks(ms, q, slot.member, PointsAt(ms[slot.member].x, slot.i), slot.rep);
    } else {
      NoProgress(ms, q);
    }
  }

  lemma {:induction false} SlotsWork(ms: seq<Member>, q: State, slots: seq<Slot>)
    requires Fit(ms, q)
    ensures Progress(ms, q, RunSlots(ms, q, slots), AllTickets(ms, slots))
  {
    if slots == [] {
      NoProgress(ms, q);
    } else {
      var n := |slots| - 1;
      var before := RunSlots(ms, q, slots[..n]);
      SlotsWork(ms, q, slots[..n]);
      SlotWorks(ms, before, slots[n]);
      ProgressTwice(ms, q, before, RunSlot(ms, before, slots[n]), AllTickets(ms, slots[..n]),
          SlotTickets(ms, slots[n]));
    }
  }

  // ----- what the schedule covers -----

  function AtPoint(ms: seq<Member>, group: nat, k: nat): nat -> seq<Slot> {
    (i: nat) => DueAt(ms, group, k, i, |ms|)
  }

  lemma RoundMore(ms: seq<Member>, group: nat, k: nat, i: nat)
    ensures Round(ms, group, k, i + 1) == Round(ms, group, k, i) + AtPoint(ms, group, k)(i)
  {
  }

  lemma RoundCollects(ms: seq<Member>, group: nat, k: nat, n: nat)
    ensures Round(ms, group, k, n) == Collect(AtPoint(ms, group, k), n)
  {
    var round := (i: nat) => Round(ms, group, k, i);
    forall i: nat ensures round(i + 1) == round(i) + AtPoint(ms, group, k)(i) {
      RoundMore(ms, group, k, i);
    }
    CollectIs(AtPoint(ms, group, k), round, n);
  }

  lemma RoundMembers(ms: seq<Member>, group: nat, k: nat, n: nat, slot: Slot)
    ensures slot in Round(ms, group, k, n) <==> Due(ms, group, slot) && slot.rep == k && slot.i < n
  {
    RoundCollects(ms, group, k, n);
    forall i: nat ensures slot in AtPoint(ms, group, k)(i) <==> Due(ms, group, slot) && slot.rep == k && slot.i == i {
      DueAtMembers(ms, group, k, i, |ms|, slot);
    }
    CollectWhere(AtPoint(ms, group, k), n, slot, Due(ms, group, slot) && slot.rep == k, slot.i);
  }

  function AtRep(ms: seq<Member>, group: nat): nat -> seq<Slot> {
    (k: nat) => Round(ms, group, k + 1, Longest(ms, group, |ms|))
  }

  lemma RoundsMore(ms: seq<Member>, group: nat, k: nat)
    ensures Rounds(ms, group, k + 1) == Rounds(ms, group, k) + AtRep(ms, group)(k)
  {
  }

  lemma RoundsCollect(ms: seq<Member>, group: nat, n: nat)
    ensures Rounds(ms, group, n) == Collect(AtRep(ms, group), n)
  {
    var rounds := (k: nat) => Rounds(ms, group, k);
    forall k: nat ensures rounds(k + 1) == rounds(k) + AtRep(ms, group)(k) {
      RoundsMore(ms, group, k);
    }
    CollectIs(AtRep(ms, group), rounds, n);
  }

  lemma AtRepMembers(ms: seq<Member>, group: nat, k: nat, slot: Slot)
    ensures slot in AtRep(ms, group)(k) <==> Due(ms, group, slot) && slot.rep - 1 == k
  {
    RoundMembers(ms, group, k + 1, Longest(ms, group, |ms|), slot);
  }

  lemma CollectedMembers(ms: seq<Member>, group: nat, n: nat, slot: Slot)
    ensures slot in Collect(AtRep(ms, group), n) <==> Due(ms, group, slot) && slot.rep <= n
  {
    forall k: nat ensures slot in AtRep(ms, group)(k) <==> Due(ms, group, slot) && slot.rep - 1 == k {
      AtRepMembers(ms, group, k, slot);
    }
    CollectWhere(AtRep(ms, group), n, slot, Due(ms, group, slot), slot.rep - 1);
  }

  lemma RoundsMembers(ms: seq<Member>, group: nat, n: nat, slot: Slot)
    ensures slot in Rounds(ms, group, n) <==> Due(ms, group, slot) && slot.rep <= n
  {
    RoundsCollect(ms, group, n);
    CollectedMembers(ms, group, n, slot);
  }

  /** The calls for a group are exactly those that name a point and a rep of one of its members. */
  lemma ScheduleMembers(ms: seq<Member>, group: nat, slot: Slot)
    ensures slot in Schedule(ms, group) <==> Due(ms, group, slot)
  {
    RoundsMembers(ms, group, Most(ms, group, |ms|), slot);
  }

  function AllSlots(ms: seq<Member>, groups: nat): seq<Slot> {
    if groups == 0 then [] else AllSlots(ms, groups - 1) + Schedule(ms, groups - 1)
  }

  function AtGroup(ms: seq<Member>): nat -> seq<Slot> { (g: nat) => Schedule(ms, g) }

  lemma AllSlotsMore(ms: seq<Member>, g: nat)
    ensures AllSlots(ms, g + 1) == AllSlots(ms, g) + AtGroup(ms)(g)
  {
  }

  lemma AllSlotsCollect(ms: seq<Member>, groups: nat)
    ensures AllSlots(ms, groups) == Collect(AtGroup(ms), groups)
  {
    var all := (g: nat) => AllSlots(ms, g);
    forall g: nat ensures all(g + 1) == all(g) + AtGroup(ms)(g) {
      AllSlotsMore(ms, g);
    }
    CollectIs(AtGroup(ms), all, groups);
  }

  lemma AllSlotsMembers(ms: seq<Member>, groups: nat, slot: Slot)
    ensures slot in AllSlots(ms, groups) <==> exists g: nat :: g < groups && Due(ms, g, slot)
  {
    AllSlotsCollect(ms, groups);
    CollectMembers(AtGroup(ms), groups, slot);
    forall g: nat ensures slot in AtGroup(ms)(g) <==> Due(ms, g, slot) {
      ScheduleMembers(ms, g, slot);
    }
  }

  lemma {:induction false} GroupsAreSlots(ms: seq<Member>, q: State, groups: nat)
    ensures RunGroups(ms, q, groups) == RunSlots(ms, q, AllSlots(ms, groups))
  {
    if groups > 0 {
      GroupsAreSlots(ms, q, groups - 1);
      FoldConcat(Stepper(ms), q, AllSlots(ms, groups - 1), Schedule(ms, groups - 1));
    }
  }

  /** A run of the member's experiment with the queue's number of reps. */
  ghost predicate Wanted(ms: seq<Member>, groups: nat, t: Ticket)
    requires Valid(ms)
  {
    && t.member < |ms| && ms[t.member].group < groups
    && exists i :: 0 <= i < |ms[t.member].x.points| && PointAsks(ms[t.member], i, t.key)
  }

  ghost predicate PointAsks(m: Member, i: nat, key: Key)
    requires i < |m.x.points| && m.x.Valid()
  {
    assert m.x.points[i] in m.x.points;
    Asks(m.x, m.x.points[i], m.reps, key)
  }

  lemma SlotAsks(ms: seq<Member>, slot: Slot, t: Ticket)
    requires Valid(ms) && Names(ms, slot)
    ensures t in SlotTickets(ms, slot)
       <==> (&& t.member == slot.member
             && exists p <- PointsAt(ms[slot.member].x, slot.i) :: Asks(ms[slot.member].x, p, slot.rep, t.key))
  {
    var x := ms[slot.member].x;
    var points := PointsAt(x, slot.i);
    InvocationKeys(x, points, slot.rep, t.key);
    TagMembers(slot.member, KeysAll(Calls(x, points, slot.rep)), t);
  }

  lemma MoreReps(x: Experiment, p: Cfg, few: nat, many: nat, key: Key)
    requires x.axis in p && few <= many && Asks(x, p, few, key)
    ensures Asks(x, p, many, key)
  {
  }

  lemma SomePoint(m: Member, p: Cfg, key: Key)
    requires m.x.Valid() && p in m.x.points && Asks(m.x, p, m.reps, key)
    ensures exists i :: 0 <= i < |m.x.points| && PointAsks(m, i, key)
  {
    var i :| 0 <= i < |m.x.points| && m.x.points[i] == p;
    assert PointAsks(m, i, key);
  }

  lemma SlotWanted(ms: seq<Member>, groups: nat, group: nat, slot: Slot, t: Ticket)
    requires Valid(ms) && Due(ms, group, slot) && group < groups && t in SlotTickets(ms, slot)
    ensures Wanted(ms, groups, t)
  {
    var m := ms[slot.member];
    SlotAsks(ms, slot, t);
    var p :| p in PointsAt(m.x, slot.i) && Asks(m.x, p, slot.rep, t.key);
    MoreReps(m.x, p, slot.rep, m.reps, t.key);
    SomePoint(m, p, t.key);
  }

  lemma WantedSlot(ms: seq<Member>, groups: nat, t: Ticket) returns (slot: Slot)
    requires Valid(ms) && Wanted(ms, groups, t)
    ensures slot in AllSlots(ms, groups) && t in SlotTickets(ms, slot)
  {
    var m := ms[t.member];
    var i :| 0 <= i < |m.x.points| && PointAsks(m, i, t.key);
    slot := Slot(m.reps, i, t.member);
    assert Due(ms, m.group, slot);
    AllSlotsMembers(ms, groups, slot);
    AxisFilter(m.x, i);
    SlotAsks(ms, slot, t);
  }

  lemma QueueTickets(ms: seq<Member>, groups: nat, t: Ticket)
    requires Valid(ms)
    ensures t in AllTickets(ms, AllSlots(ms, groups)) <==> Wanted(ms, groups, t)
  {
    FlatMembers((slot: Slot) => SlotTickets(ms, slot), AllSlots(ms, groups), t);
    if Wanted(ms, groups, t) {
      var slot := WantedSlot(ms, groups, t);
    }
    if slot :| slot in AllSlots(ms, groups) && t in SlotTickets(ms, slot) {
      AllSlotsMembers(ms, groups, slot);
      var g: nat :| g < groups && Due(ms, g, slot);
      SlotWanted(ms, groups, g, slot, t);
    }
  }

  /**
   From any CSVs, the queue executes every run its experiments ask for that no CSV has, each
   exactly once, and no other; afterwards all of them are done.
   */
  lemma EachMissingRunOnce(ms: seq<Member>, q: State, groups: nat) returns (ran: seq<Ticket>)
    requires Fit(ms, q)
    ensures
      var q' := RunGroups(ms, q, groups);
      && q'.log == q.log + ran && Distinct(ran)
      && (forall t :: t in ran <==> Wanted(ms, groups, t) && t !in DoneAll(ms, q))
      && (forall t :: t in DoneAll(ms, q') <==> t in DoneAll(ms, q) || Wanted(ms, groups, t))
      && Fit(ms, q')
  {
    var slots := AllSlots(ms, groups);
    var ts := AllTickets(ms, slots);
    ran := Missing(ts, DoneAll(ms, q));
    GroupsAreSlots(ms, q, groups);
    SlotsWork(ms, q, slots);
    MissingDistinct(ts, DoneAll(ms, q));
    forall t ensures (t in ran <==> t in ts && t !in DoneAll(ms, q)) && (t in ts <==> Wanted(ms, groups, t)) {
      MissingMembers(ts, DoneAll(ms, q), t);
      QueueTickets(ms, groups, t);
    }
  }

  // ----- the last pass -----

  /** Nothing was executed, and what is done is as before. */
  ghost predicate Quiet(ms: seq<Member>, q: State, q': State) {
    Fit(ms, q') && DoneAll(ms, q') == DoneAll(ms, q) && q'.log == q.log
  }

  ghost predicate Complete(ms: seq<Member>, q: State, groups: nat)
    requires Valid(ms)
  {
    forall t :: Wanted(ms, groups, t) ==> t in DoneAll(ms, q)
  }

  lemma QuietProgress(ms: seq<Member>, q: State, q': State, ts: seq<Ticket>)
    requires Progress(ms, q, q', ts) && Members(ts) <= DoneAll(ms, q)
    ensures Quiet(ms, q, q')
  {
    NothingMissing(ts, DoneAll(ms, q));
  }

  lemma AllRunsDone(ms: seq<Member>, q: State, groups: nat, member: nat)
    requires Fit(ms, q) && member < |ms| && ms[member].group < groups && Complete(ms, q, groups)
    ensures Quiet(ms, q, RunAll(ms, q, member))
  {
    var m := ms[member];
    var keys := KeysAll(Calls(m.x, m.x.points, m.reps));
    RunPointsWorks(ms, q, member, m.x.points, m.reps);
    forall t | t in Tag(member, keys) ensures t in DoneAll(ms, q) {
      TagMembers(member, keys, t);
      KeyWanted(ms, groups, t);
    }
    QuietProgress(ms, q, RunAll(ms, q, member), Tag(member, keys));
  }

  lemma KeyWanted(ms: seq<Member>, groups: nat, t: Ticket)
    requires Valid(ms) && t.member < |ms| && ms[t.member].group < groups
    requires t.key in KeysAll(Calls(ms[t.member].x, ms[t.member].x.points, ms[t.member].reps))
    ensures Wanted(ms, groups, t)
  {
    var m := ms[t.member];
    InvocationKeys(m.x, m.x.points, m.reps, t.key);
    var p :| p in m.x.points && Asks(m.x, p, m.reps, t.key);
    SomePoint(m, p, t.key);
  }

  lemma {:induction false} FinalKeeps(ms: seq<Member>, q: State, n: nat, p: State -> bool)
    requires n <= |ms| && p(q) && forall s, m: nat :: m < |ms| && p(s) ==> p(RunAll(ms, s, m))
    ensures p(Final(ms, q, n))
  {
    if n > 0 {
      FinalKeeps(ms, q, n - 1, p);
      assert p(RunAll(ms, Final(ms, q, n - 1), n - 1));
    }
  }

  lemma QuietStep(ms: seq<Member>, q: State, q': State, groups: nat, member: nat)
    requires Fit(ms, q) && Quiet(ms, q, q') && Complete(ms, q, groups)
    requires member < |ms| && ms[member].group < groups
    ensures Quiet(ms, q, RunAll(ms, q', member))
  {
    AllRunsDone(ms, q', groups, member);
  }

  lemma FinalRunsNothing(ms: seq<Member>, q: State, groups: nat, n: nat)
    requires Fit(ms, q) && n <= |ms| && Complete(ms, q, groups)
    requires forall m :: 0 <= m < |ms| ==> ms[m].group < groups
    ensures Quiet(ms, q, Final(ms, q, n))
  {
    forall s, m: nat | m < |ms| && Quiet(ms, q, s) ensures Quiet(ms, q, RunAll(ms, s, m)) {
      QuietStep(ms, q, s, groups, m);
    }
    FinalKeeps(ms, q, n, (s: State) => Quiet(ms, q, s));
  }

  /** The pass over whole experiments at the end starts no run: it only plots. */
  lemma LastPassOnlyPlots(ms: seq<Member>, q: State, groups: nat)
    requires Fit(ms, q) && forall m :: 0 <= m < |ms| ==> ms[m].group < groups
    ensures
      var done := RunGroups(ms, q, groups);
      Final(ms, done, |ms|).log == done.log
  {
    var done := RunGroups(ms, q, groups);
    var ran := EachMissingRunOnce(ms, q, groups);
    FinalRunsNothing(ms, done, groups, |ms|);
  }
}
