/** The order in which the queue executes runs, and why each of its calls is at most one run. */
module QueueOrder {
  import opened Folds
  import opened Worklist
  import opened Sweeps
  import opened Experiments
  import opened ExperimentRuns
  import opened Queue
  import opened QueueRuns

  // ----- the calls are in lexicographic order -----

  /** By rep, then by point, then by member. */
  predicate Before(a: Slot, b: Slot) {
    || a.rep < b.rep
    || (a.rep == b.rep && a.i < b.i)
    || (a.rep == b.rep && a.i == b.i && a.member < b.member)
  }

  predicate Sorted(slots: seq<Slot>) { forall i, j :: 0 <= i < j < |slots| ==> Before(slots[i], slots[j]) }

  lemma SortedConcat(a: seq<Slot>, b: seq<Slot>)
    requires Sorted(a) && Sorted(b) && forall s <- a, t <- b :: Before(s, t)
    ensures Sorted(a + b)
  {
    forall i, j | 0 <= i < j < |a + b| ensures Before((a + b)[i], (a + b)[j]) {
      if i < |a| <= j {
        assert a[i] in a && b[j - |a|] in b;
      }
    }
  }

  lemma {:induction false} DueAtSorted(ms: seq<Member>, group: nat, k: nat, i: nat, n: nat)
    ensures Sorted(DueAt(ms, group, k, i, n))
  {
    if n > 0 {
      var before, last := DueAt(ms, group, k, i, n - 1), Slot(k, i, n - 1);
      DueAtSorted(ms, group, k, i, n - 1);
      forall s <- before ensures Before(s, last) {
        DueAtMembers(ms, group, k, i, n - 1, s);
      }
      SortedConcat(before, if Due(ms, group, last) then [last] else []);
    }
  }

  /** Every slot has this rep and, of its points, one from `low` on and below `high`. */
  predicate Within(slots: seq<Slot>, k: nat, low: nat, high: nat) {
    forall s <- slots :: s.rep == k && low <= s.i < high
  }

  lemma RoundWithin(ms: seq<Member>, group: nat, k: nat, n: nat)
    ensures Within(Round(ms, group, k, n), k, 0, n)
  {
    forall s <- Round(ms, group, k, n) ensures s.rep == k && s.i < n {
      RoundMembers(ms, group, k, n, s);
    }
  }

  lemma DueAtWithin(ms: seq<Member>, group: nat, k: nat, i: nat, n: nat)
    ensures Within(DueAt(ms, group, k, i, n), k, i, i + 1)
  {
    forall s <- DueAt(ms, group, k, i, n) ensures s.rep == k && s.i == i {
      DueAtMembers(ms, group, k, i, n, s);
    }
  }

  lemma WithinConcat(a: seq<Slot>, b: seq<Slot>, k: nat, n: nat)
    requires Sorted(a) && Sorted(b) && Within(a, k, 0, n) && Within(b, k, n, n + 1)
    ensures Sorted(a + b)
  {
    SortedConcat(a, b);
  }

  lemma {:induction false} RoundSorted(ms: seq<Member>, group: nat, k: nat, n: nat)
    ensures Sorted(Round(ms, group, k, n))
  {
    if n > 0 {
      var i := n - 1;
      RoundSorted(ms, group, k, i);
      DueAtSorted(ms, group, k, i, |ms|);
      RoundWithin(ms, group, k, i);
      DueAtWithin(ms, group, k, i, |ms|);
      WithinConcat(Round(ms, group, k, i), DueAt(ms, group, k, i, |ms|), k, i);
    }
  }

  lemma RepsConcat(a: seq<Slot>, b: seq<Slot>, k: nat)
    requires Sorted(a) && Sorted(b) && (forall s <- a :: s.rep < k) && (forall s <- b :: s.rep == k)
    ensures Sorted(a + b)
  {
    SortedConcat(a, b);
  }

  lemma RoundsSorted(ms: seq<Member>, group: nat, n: nat)
    ensures Sorted(Rounds(ms, group, n))
  {
    var slots, longest := [], Longest(ms, group, |ms|);
    for k := 0 to n
      invariant slots == Rounds(ms, group, k)
      invariant Sorted(slots) && forall s <- slots :: s.rep < k + 1
    {
      RoundSorted(ms, group, k + 1, longest);
      RoundWithin(ms, group, k + 1, longest);
      RepsConcat(slots, Round(ms, group, k + 1, longest), k + 1);
      slots := slots + Round(ms, group, k + 1, longest);
    }
  }

  /**
   The nested loops make each call a group needs exactly once, in lexicographic order: the
   schedule is the only sequence with these properties.
   */
  lemma ScheduleIsLexicographic(ms: seq<Member>, group: nat)
    ensures Sorted(Schedule(ms, group))
    ensures forall slot :: slot in Schedule(ms, group)
                      <==> (&& slot.member < |ms| && ms[slot.member].group == group
                            && 1 <= slot.rep <= ms[slot.member].reps && slot.i < |ms[slot.member].x.points|)
  {
    RoundsSorted(ms, group, Most(ms, group, |ms|));
    forall slot ensures slot in Schedule(ms, group) <==> Due(ms, group, slot) {
      ScheduleMembers(ms, group, slot);
    }
  }

  // ----- one call, one run -----

  /** No two points share an axis value. */
  predicate DistinctAxis(x: Experiment)
    requires x.Valid()
  {
    forall i, j :: 0 <= i < j < |x.points| ==> AxisAt(x, i) != AxisAt(x, j)
  }

  function AxisAt(x: Experiment, i: nat): string
    requires x.Valid() && i < |x.points|
  {
    assert x.points[i] in x.points;
    x.points[i][x.axis]
  }

  /** Axis values name one point each and hold no comma. */
  predicate Simple(x: Experiment)
    requires x.Valid()
  {
    DistinctAxis(x) && forall i :: 0 <= i < |x.points| ==> CommaFree(AxisAt(x, i))
  }

  /** A call covers one point alone if and only if no other point has its axis value. */
  lemma OnePoint(x: Experiment, i: nat)
    requires x.Valid() && i < |x.points|
    ensures PointsAt(x, i) == [x.points[i]]
       <==> forall j :: 0 <= j < |x.points| && j != i ==> AxisAt(x, j) != AxisAt(x, i)
  {
    var keep := (p: Cfg) => Has(x, p, x.axis, AxisAt(x, i));
    forall j | 0 <= j < |x.points| ensures keep(x.points[j]) <==> AxisAt(x, j) == AxisAt(x, i) {
      assert x.points[j] in x.points;
    }
    KeepsOne(keep, x.points, i);
  }

  lemma OnePass(v: string, rep: nat)
    ensures Pass([v], rep) == [(v, rep)]
  {
    assert [v][1..] == [] && Pass([v][1..], rep) == [];
  }

  lemma {:induction false} OneRepMajor(v: string, reps: nat)
    ensures RepMajor([v], reps) == RepsOf(v, reps)
  {
    if reps > 0 {
      OneRepMajor(v, reps - 1);
      OnePass(v, reps);
    }
  }

  lemma OneValueMajor(v: string, reps: nat)
    ensures ValueMajor([v], reps) == RepsOf(v, reps) == RepMajor([v], reps)
  {
    OneRepMajor(v, reps);
    assert [v][1..] == [] && ValueMajor([v][1..], reps) == [];
  }

  lemma OneGroup(axis: string, p: Cfg)
    requires axis in p
    ensures Grouped(axis, [], [p]) == [Group(p - {axis}, [p[axis]])]
  {
    assert [p][1..] == [];
  }

  lemma PutBack(axis: string, p: Cfg)
    requires axis in p
    ensures (p - {axis})[axis := p[axis]] == p
  {
  }

  lemma OneMerged(axis: string, p: Cfg)
    requires axis in p
    ensures Merged(axis, Grouped(axis, [], [p])) == [p]
  {
    OneGroup(axis, p);
    PutBack(axis, p);
    var g := Group(p - {axis}, [p[axis]]);
    assert Made(axis, [g]) && [g][1..] == [] && Merged(axis, [g][1..]) == [];
  }

  lemma OneCall(x: Experiment, p: Cfg, reps: nat)
    requires x.axis in p
    ensures Calls(x, [p], reps) == [CallFor(x, p, reps, x.interleave)]
  {
    OneMerged(x.axis, p);
    assert p in [p] && [p][1..] == [];
    assert CallsFor(x, [p], reps, x.interleave)
        == [CallFor(x, p, reps, x.interleave)] + CallsFor(x, [p][1..], reps, x.interleave);
  }

  /** A call for one comma-free point asks for that point's reps, one after another. */
  lemma OnePointKeys(x: Experiment, p: Cfg, reps: nat)
    requires x.axis in p && CommaFree(p[x.axis])
    ensures KeysAll(Calls(x, [p], reps)) == KeysOf(Held(x, p - {x.axis}), RepsOf(p[x.axis], reps))
  {
    var v, held := p[x.axis], Held(x, p - {x.axis});
    SplitOne(v);
    OneValueMajor(v, reps);
    var call := CallFor(x, p, reps, x.interleave);
    OneCall(x, p, reps);
    assert Plan(call) == RepsOf(v, reps);
    SameKeys(call, held, RepsOf(v, reps));
    assert [call][1..] == [] && KeysAll([call][1..]) == [];
  }

  /** The run a call is meant for: the last rep of its point. */
  function TicketOf(ms: seq<Member>, slot: Slot): Ticket
    requires Valid(ms) && Names(ms, slot)
  {
    var x := ms[slot.member].x;
    Ticket(slot.member, RunKey(x, x.points[slot.i], AxisAt(x, slot.i), slot.rep))
  }

  /** All runs of the slot's point up to a rep. */
  function Upto(ms: seq<Member>, slot: Slot, reps: nat): seq<Ticket>
    requires Valid(ms) && Names(ms, slot)
  {
    if reps == 0 then [] else Upto(ms, slot, reps - 1) + [TicketOf(ms, slot.(rep := reps))]
  }

  lemma UptoMore(ms: seq<Member>, slot: Slot, reps: nat, last: Slot)
    requires Valid(ms) && Names(ms, slot) && last == slot.(rep := reps) && reps > 0
    ensures Upto(ms, slot, reps) == Upto(ms, slot, reps - 1) + [TicketOf(ms, last)]
  {
  }

  lemma {:induction false} TagConcat(member: nat, a: seq<Key>, b: seq<Key>)
    ensures Tag(member, a + b) == Tag(member, a) + Tag(member, b)
  {
    if a == [] {
      assert a + b == b;
    } else {
      assert (a + b)[1..] == a[1..] + b;
      TagConcat(member, a[1..], b);
    }
  }

  lemma {:induction false} TaggedReps(ms: seq<Member>, slot: Slot, reps: nat)
    requires Valid(ms) && Names(ms, slot)
    ensures
      var x := ms[slot.member].x;
      var held := Held(x, x.points[slot.i] - {x.axis});
      Tag(slot.member, KeysOf(held, RepsOf(AxisAt(x, slot.i), reps))) == Upto(ms, slot, reps)
  {
    if reps > 0 {
      var x := ms[slot.member].x;
      var held, v := Held(x, x.points[slot.i] - {x.axis}), AxisAt(x, slot.i);
      TaggedReps(ms, slot, reps - 1);
      KeysOfConcat(held, RepsOf(v, reps - 1), [(v, reps)]);
      assert KeysOf(held, [(v, reps)]) == [held.KeyAt(v, reps)];
      HeldIs(x, x.points[slot.i], v, reps);
      TagConcat(slot.member, KeysOf(held, RepsOf(v, reps - 1)), [held.KeyAt(v, reps)]);
      assert Tag(slot.member, [held.KeyAt(v, reps)]) == [TicketOf(ms, slot.(rep := reps))];
    }
  }

  lemma SlotIsUpto(ms: seq<Member>, slot: Slot)
    requires Valid(ms) && Names(ms, slot) && Simple(ms[slot.member].x)
    ensures SlotTickets(ms, slot) == Upto(ms, slot, slot.rep)
  {
    var x := ms[slot.member].x;
    OnePoint(x, slot.i);
    forall j | 0 <= j < |x.points| && j != slot.i ensures AxisAt(x, j) != AxisAt(x, slot.i) {
    }
    assert CommaFree(AxisAt(x, slot.i));
    OnePointKeys(x, x.points[slot.i], slot.rep);
    TaggedReps(ms, slot, slot.rep);
  }

  lemma {:induction false} UptoMembers(ms: seq<Member>, slot: Slot, reps: nat, t: Ticket)
    requires Valid(ms) && Names(ms, slot)
    ensures t in Upto(ms, slot, reps) <==> exists r: nat :: 1 <= r <= reps && t == TicketOf(ms, slot.(rep := r))
  {
    if reps > 0 {
      UptoMembers(ms, slot, reps - 1, t);
    }
  }

  /** All earlier reps of the slot's point are done. */
  ghost predicate Prepared(ms: seq<Member>, slot: Slot, done: iset<Ticket>)
    requires Valid(ms) && Names(ms, slot)
  {
    forall r: nat :: 1 <= r < slot.rep ==> TicketOf(ms, slot.(rep := r)) in done
  }

  lemma EarlierDone(ms: seq<Member>, slot: Slot, earlier: seq<Ticket>, done: iset<Ticket>)
    requires Valid(ms) && Names(ms, slot) && slot.rep >= 1 && Prepared(ms, slot, done)
    requires earlier == Upto(ms, slot, slot.rep - 1)
    ensures Members(earlier) <= done
  {
    forall e | e in earlier ensures e in done {
      UptoMembers(ms, slot, slot.rep - 1, e);
    }
  }

  lemma UptoLast(ms: seq<Member>, slot: Slot)
    requires Valid(ms) && Names(ms, slot) && slot.rep >= 1
    ensures Upto(ms, slot, slot.rep) == Upto(ms, slot, slot.rep - 1) + [TicketOf(ms, slot)]
  {
    UptoMore(ms, slot, slot.rep, slot);
  }

  lemma LastOfUpto(ms: seq<Member>, slot: Slot, done: iset<Ticket>)
    requires Valid(ms) && Names(ms, slot) && slot.rep >= 1 && Prepared(ms, slot, done)
    ensures Same(Upto(ms, slot, slot.rep), [TicketOf(ms, slot)], done)
  {
    var earlier := Upto(ms, slot, slot.rep - 1);
    UptoLast(ms, slot);
    EarlierDone(ms, slot, earlier, done);
    MissingLast(earlier, TicketOf(ms, slot), done);
  }

  /**
   Once the earlier reps of its point are done, a call that asks for reps 1 to k executes
   rep k alone, and nothing if that is done too.
   */
  lemma OneRunPerCall(ms: seq<Member>, slot: Slot, done: iset<Ticket>)
    requires Valid(ms) && Names(ms, slot) && slot.rep >= 1 && Simple(ms[slot.member].x)
    requires Prepared(ms, slot, done)
    ensures Same(SlotTickets(ms, slot), [TicketOf(ms, slot)], done)
  {
    SlotIsUpto(ms, slot);
    LastOfUpto(ms, slot, done);
  }

  // ----- the whole queue -----

  predicate AllSimple(ms: seq<Member>)
    requires Valid(ms)
  {
    forall m :: 0 <= m < |ms| ==> Simple(ms[m].x)
  }

  function Target(ms: seq<Member>, slot: Slot): seq<Ticket>
    requires Valid(ms)
  {
    if Names(ms, slot) then [TicketOf(ms, slot)] else []
  }

  /** The runs the slots are meant for. */
  function Targets(ms: seq<Member>, slots: seq<Slot>): seq<Ticket>
    requires Valid(ms)
  {
    Flat((slot: Slot) => Target(ms, slot), slots)
  }

  lemma {:induction false} RoundEffect(ms: seq<Member>, slots: seq<Slot>, done: iset<Ticket>)
    requires Valid(ms) && AllSimple(ms)
    requires forall s <- slots :: Names(ms, s) && s.rep >= 1 && Prepared(ms, s, done)
    ensures Same(AllTickets(ms, slots), Targets(ms, slots), done)
  {
    if slots != [] {
      var n := |slots| - 1;
      var before := AllTickets(ms, slots[..n]);
      RoundEffect(ms, slots[..n], done);
      assert slots[n] in slots;
      OneRunPerCall(ms, slots[n], done + Members(before));
      SameTwice(before, Targets(ms, slots[..n]), SlotTickets(ms, slots[n]), Target(ms, slots[n]), done);
    }
  }

  lemma ConcatEffect(ms: seq<Member>, a: seq<Slot>, b: seq<Slot>, done: iset<Ticket>)
    requires Valid(ms) && Same(AllTickets(ms, a), Targets(ms, a), done)
    requires Same(AllTickets(ms, b), Targets(ms, b), done + Members(AllTickets(ms, a)))
    ensures Same(AllTickets(ms, a + b), Targets(ms, a + b), done)
  {
    FlatConcat((s: Slot) => SlotTickets(ms, s), a, b);
    FlatConcat((s: Slot) => Target(ms, s), a, b);
    SameTwice(AllTickets(ms, a), Targets(ms, a), AllTickets(ms, b), Targets(ms, b), done);
  }

  lemma TargetIn(ms: seq<Member>, slots: seq<Slot>, slot: Slot)
    requires Valid(ms) && slot in slots && Names(ms, slot)
    ensures TicketOf(ms, slot) in Targets(ms, slots)
  {
    FlatMembers((s: Slot) => Target(ms, s), slots, TicketOf(ms, slot));
    assert TicketOf(ms, slot) in Target(ms, slot);
  }

  /** Every call of the first `n` rounds has had its run. */
  ghost predicate RepsDone(ms: seq<Member>, group: nat, n: nat, done: iset<Ticket>)
    requires Valid(ms)
  {
    forall s :: Due(ms, group, s) && s.rep <= n ==> TicketOf(ms, s) in done
  }

  /** The calls of the first `n` rounds are all there. */
  ghost predicate Reaches(ms: seq<Member>, group: nat, n: nat, slots: seq<Slot>) {
    forall s :: Due(ms, group, s) && s.rep <= n ==> s in slots
  }

  predicate OfRep(ms: seq<Member>, group: nat, n: nat, slots: seq<Slot>) {
    forall s <- slots :: Due(ms, group, s) && s.rep == n
  }

  lemma RoundsDone(ms: seq<Member>, group: nat, n: nat, slots: seq<Slot>, done: iset<Ticket>)
    requires Valid(ms) && Reaches(ms, group, n, slots) && Members(Targets(ms, slots)) <= done
    ensures RepsDone(ms, group, n, done)
  {
    forall s | Due(ms, group, s) && s.rep <= n ensures TicketOf(ms, s) in done {
      TargetIn(ms, slots, s);
    }
  }

  /** After the rounds before, every call of a round has its earlier reps done. */
  lemma RoundPrepared(ms: seq<Member>, group: nat, n: nat, slot: Slot, done: iset<Ticket>)
    requires Valid(ms) && n > 0 && Due(ms, group, slot) && slot.rep == n && RepsDone(ms, group, n - 1, done)
    ensures Prepared(ms, slot, done)
  {
    forall r: nat | 1 <= r < n ensures TicketOf(ms, slot.(rep := r)) in done {
      assert Due(ms, group, slot.(rep := r));
    }
  }

  lemma OneRound(ms: seq<Member>, group: nat, n: nat, here: seq<Slot>, done: iset<Ticket>)
    requires Valid(ms) && AllSimple(ms) && n > 0 && OfRep(ms, group, n, here) && RepsDone(ms, group, n - 1, done)
    ensures Same(AllTickets(ms, here), Targets(ms, here), done)
  {
    forall s <- here ensures Names(ms, s) && s.rep >= 1 && Prepared(ms, s, done) {
      RoundPrepared(ms, group, n, s, done);
    }
    RoundEffect(ms, here, done);
  }

  lemma SameCovers(p: seq<Ticket>, p': seq<Ticket>, done: iset<Ticket>)
    requires Same(p, p', done)
    ensures Members(p') <= done + Members(p)
  {
    assert Members(p') <= done + Members(p');
  }

  lemma OneRoundMore(ms: seq<Member>, group: nat, n: nat, before: seq<Slot>, here: seq<Slot>, done: iset<Ticket>)
    requires Valid(ms) && AllSimple(ms) && Reaches(ms, group, n, before) && OfRep(ms, group, n + 1, here)
    requires Same(AllTickets(ms, before), Targets(ms, before), done)
    ensures Same(AllTickets(ms, before + here), Targets(ms, before + here), done)
  {
    var then' := done + Members(AllTickets(ms, before));
    SameCovers(AllTickets(ms, before), Targets(ms, before), done);
    RoundsDone(ms, group, n, before, then');
    OneRound(ms, group, n + 1, here, then');
    ConcatEffect(ms, before, here, done);
  }

  /** `here` is a round of calls and `before` has all rounds before it. */
  ghost predicate Follows(ms: seq<Member>, group: nat, k: nat, before: seq<Slot>, here: seq<Slot>) {
    Reaches(ms, group, k, before) && OfRep(ms, group, k + 1, here)
  }

  lemma RoundFollows(ms: seq<Member>, group: nat, k: nat, before: seq<Slot>, here: seq<Slot>)
    requires before == Collect(AtRep(ms, group), k) && here == AtRep(ms, group)(k)
    ensures Follows(ms, group, k, before, here)
  {
    forall s | Due(ms, group, s) && s.rep <= k ensures s in before {
      CollectedMembers(ms, group, k, s);
    }
    forall s <- here ensures Due(ms, group, s) && s.rep == k + 1 {
      AtRepMembers(ms, group, k, s);
    }
  }

  lemma RoundsKeep(ms: seq<Member>, group: nat, n: nat, p: seq<Slot> -> bool)
    requires p([])
    requires forall k: nat, before, here :: p(before) && Follows(ms, group, k, before, here) ==> p(before + here)
    ensures p(Rounds(ms, group, n))
  {
    var f := AtRep(ms, group);
    forall k: nat ensures KeptAt(f, p, k) {
      RoundFollows(ms, group, k, Collect(f, k), f(k));
    }
    CollectKeeps(f, n, p);
    RoundsCollect(ms, group, n);
  }

  lemma GroupEffect(ms: seq<Member>, group: nat, done: iset<Ticket>)
    requires Valid(ms) && AllSimple(ms)
    ensures Same(AllTickets(ms, Schedule(ms, group)), Targets(ms, Schedule(ms, group)), done)
  {
    var same := (slots: seq<Slot>) => Valid(ms) && Same(AllTickets(ms, slots), Targets(ms, slots), done);
    forall k: nat, before, here | same(before) && Follows(ms, group, k, before, here) ensures same(before + here) {
      OneRoundMore(ms, group, k, before, here, done);
    }
    RoundsKeep(ms, group, Most(ms, group, |ms|), same);
  }

  lemma GroupsEffect(ms: seq<Member>, groups: nat, done: iset<Ticket>)
    requires Valid(ms) && AllSimple(ms)
    ensures Same(AllTickets(ms, AllSlots(ms, groups)), Targets(ms, AllSlots(ms, groups)), done)
  {
    var slots := [];
    for g := 0 to groups
      invariant slots == AllSlots(ms, g)
      invariant Same(AllTickets(ms, slots), Targets(ms, slots), done)
    {
      GroupEffect(ms, g, done + Members(AllTickets(ms, slots)));
      ConcatEffect(ms, slots, Schedule(ms, g), done);
      slots := slots + Schedule(ms, g);
    }
  }

  // ----- no target twice -----

  lemma DistinctConcat(a: seq<Slot>, b: seq<Slot>)
    requires Distinct(a) && Distinct(b) && forall s <- a :: s !in b
    ensures Distinct(a + b)
  {
    forall i, j | 0 <= i < j < |a + b| ensures (a + b)[i] != (a + b)[j] {
      if i < |a| <= j {
        assert a[i] in a && b[j - |a|] in b;
      }
    }
  }

  lemma {:induction false} AllSlotsDistinct(ms: seq<Member>, groups: nat)
    ensures Distinct(AllSlots(ms, groups))
  {
    if groups > 0 {
      var g := groups - 1;
      AllSlotsDistinct(ms, g);
      ScheduleIsLexicographic(ms, g);
      forall s <- AllSlots(ms, g) ensures s !in Schedule(ms, g) {
        AllSlotsMembers(ms, g, s);
      }
      DistinctConcat(AllSlots(ms, g), Schedule(ms, g));
    }
  }

  /** Different calls are meant for different runs. */
  lemma TicketInjective(ms: seq<Member>, a: Slot, b: Slot)
    requires Valid(ms) && AllSimple(ms) && Names(ms, a) && Names(ms, b)
    ensures TicketOf(ms, a) == TicketOf(ms, b) ==> a == b
  {
    if a.member == b.member && a.i != b.i {
      assert AxisAt(ms[a.member].x, a.i) != AxisAt(ms[a.member].x, b.i);
    }
  }

  lemma TargetNew(ms: seq<Member>, slots: seq<Slot>, slot: Slot)
    requires Valid(ms) && AllSimple(ms) && Names(ms, slot) && forall s <- slots :: Names(ms, s)
    ensures slot in slots || TicketOf(ms, slot) !in Targets(ms, slots)
  {
    FlatMembers((s: Slot) => Target(ms, s), slots, TicketOf(ms, slot));
    forall s <- slots ensures TicketOf(ms, slot) in Target(ms, s) ==> s == slot {
      TicketInjective(ms, s, slot);
    }
  }

  lemma {:induction false} TargetsDistinct(ms: seq<Member>, slots: seq<Slot>)
    requires Valid(ms) && AllSimple(ms) && Distinct(slots) && forall s <- slots :: Names(ms, s)
    ensures Distinct(Targets(ms, slots))
  {
    if slots != [] {
      var n := |slots| - 1;
      TargetsDistinct(ms, slots[..n]);
      assert slots[n] in slots;
      TargetNew(ms, slots[..n], slots[n]);
    }
  }

  /**
   From any CSVs, the queue executes the runs that no CSV has in the order of its schedule:
   group by group, and within a group by rep, point and member, although each call asks the
   driver for all reps so far.
   */
  lemma LexicographicQueue(ms: seq<Member>, q: State, groups: nat)
    requires Fit(ms, q) && AllSimple(ms)
    ensures RunGroups(ms, q, groups).log
         == q.log + Undone(Targets(ms, AllSlots(ms, groups)), DoneAll(ms, q))
    ensures Distinct(Targets(ms, AllSlots(ms, groups)))
  {
    var slots := AllSlots(ms, groups);
    GroupsAreSlots(ms, q, groups);
    SlotsWork(ms, q, slots);
    GroupsEffect(ms, groups, DoneAll(ms, q));
    AllSlotsDistinct(ms, groups);
    forall s <- slots ensures Names(ms, s) {
      AllSlotsMembers(ms, groups, s);
    }
    TargetsDistinct(ms, slots);
    MissingIsUndone(Targets(ms, slots), DoneAll(ms, q));
  }
}
