/** When the queue executes exactly the missing runs, on CSVs of any columns. */
module QueueExact {
  import opened Folds
  import opened Worklist
  import opened Sweeps
  import opened Experiments
  import opened ExperimentRuns
  import opened Queue
  import opened QueueRuns
  import opened QueueFromAny
  import opened QueueOrder

  /** Behind a member's first missing run, these calls come to no done run that it undoes. */
  ghost predicate ExactFor(ms: seq<Member>, q: State, slots: seq<Slot>, m: nat)
    requires m < |ms| == |q.sessions|
  {
    var df, knobs := q.sessions[m].df, ms[m].x.Knobs();
    NoneUndone(MemberKeys(ms, m, slots), DoneSet(df, knobs), Lasting(df, knobs))
  }

  ghost predicate AllExact(ms: seq<Member>, q: State, slots: seq<Slot>)
    requires |ms| == |q.sessions|
  {
    forall m :: 0 <= m < |ms| ==> ExactFor(ms, q, slots, m)
  }

  // ----- the log, member by member -----

  /** The runs of one member in a log. */
  function OfMember(log: seq<Ticket>, m: nat): seq<Key> {
    if log == [] then []
    else OfMember(log[..|log| - 1], m) + if log[|log| - 1].member == m then [log[|log| - 1].key] else []
  }

  lemma {:induction false} OfMemberConcat(a: seq<Ticket>, b: seq<Ticket>, m: nat)
    ensures OfMember(a + b, m) == OfMember(a, m) + OfMember(b, m)
  {
    if b == [] {
      assert a + b == a;
    } else {
      assert (a + b)[..|a + b| - 1] == a + b[..|b| - 1];
      OfMemberConcat(a, b[..|b| - 1], m);
    }
  }

  lemma {:induction false} OfMemberTag(k: nat, keys: seq<Key>, m: nat)
    ensures OfMember(Tag(k, keys), m) == if k == m then keys else []
  {
    if keys != [] {
      var first := [Ticket(k, keys[0])];
      OfMemberTag(k, keys[1..], m);
      OfMemberConcat(first, Tag(k, keys[1..]), m);
      assert first[..0] == [] && OfMember(first, m) == [] + if k == m then [keys[0]] else [];
      assert keys == [keys[0]] + keys[1..];
    }
  }

  lemma {:induction false} InLog(log: seq<Ticket>, t: Ticket)
    ensures t in log <==> t.key in OfMember(log, t.member)
  {
    if log != [] {
      InLog(log[..|log| - 1], t);
      assert t in log <==> t in log[..|log| - 1] || t == log[|log| - 1];
    }
  }

  lemma DistinctFront(xs: seq<Key>, x: seq<Key>)
    requires Distinct(xs + x)
    ensures Distinct(xs) && forall k <- x :: k !in xs
  {
    forall i, j | 0 <= i < j < |xs| ensures xs[i] != xs[j] {
      assert (xs + x)[i] != (xs + x)[j];
    }
    forall k <- x ensures k !in xs {
      var j :| 0 <= j < |x| && x[j] == k;
      forall i | 0 <= i < |xs| ensures xs[i] != k {
        assert (xs + x)[i] != (xs + x)[|xs| + j];
      }
    }
  }

  lemma {:induction false} DistinctLog(log: seq<Ticket>)
    requires forall m: nat :: Distinct(OfMember(log, m))
    ensures Distinct(log)
  {
    if log != [] {
      var front, last := log[..|log| - 1], log[|log| - 1];
      forall m: nat ensures Distinct(OfMember(front, m)) {
        assert Distinct(OfMember(log, m));
        DistinctFront(OfMember(front, m), if last.member == m then [last.key] else []);
      }
      DistinctLog(front);
      InLog(front, last);
      assert Distinct(OfMember(log, last.member));
      DistinctFront(OfMember(front, last.member), [last.key]);
    }
  }

  // ----- one call -----

  /** The runs one call executes. */
  ghost function CallRuns(ms: seq<Member>, q: State, slot: Slot): seq<Key>
    requires |ms| == |q.sessions|
  {
    if Valid(ms) && Names(ms, slot) then
      var df, knobs := q.sessions[slot.member].df, ms[slot.member].x.Knobs();
      Worked(KeysFor(ms, slot.member, slot), DoneSet(df, knobs), Lasting(df, knobs))
    else []
  }

  lemma SlotLogs(ms: seq<Member>, q: State, slot: Slot, q': State)
    requires AllUsable(ms, q) && q' == RunSlot(ms, q, slot)
    ensures q'.log == q.log + Tag(slot.member, CallRuns(ms, q, slot))
    ensures AllUsable(ms, q')
  {
    forall m | 0 <= m < |ms| ensures Usable(ms, q', m) {
      SlotFromAny(ms, q, m, slot);
    }
    if Names(ms, slot) {
      SlotFromAny(ms, q, slot.member, slot);
      SinceWorked(q.sessions[slot.member], q'.sessions[slot.member], ms[slot.member].x.Knobs(),
                  KeysFor(ms, slot.member, slot));
    }
  }

  lemma SinceWorked(s: Session, s': Session, knobs: set<string>, keys: seq<Key>)
    requires WorkedFrom(s, s', knobs, keys)
    ensures Since(s', |RanKeys(s.ran)|) == Worked(keys, DoneSet(s.df, knobs), Lasting(s.df, knobs))
  {
  }

  lemma KeysOfOthers(ms: seq<Member>, m: nat, slot: Slot)
    ensures slot.member != m ==> KeysFor(ms, m, slot) == []
  {
  }

  // ----- the log over any calls -----

  /** What a member executes over some calls. */
  ghost function MemberRuns(ms: seq<Member>, q: State, slots: seq<Slot>, m: nat): seq<Key>
    requires m < |ms| == |q.sessions|
  {
    var df, knobs := q.sessions[m].df, ms[m].x.Knobs();
    Worked(MemberKeys(ms, m, slots), DoneSet(df, knobs), Lasting(df, knobs))
  }

  lemma MemberMore(ms: seq<Member>, q: State, q1: State, front: seq<Slot>, slot: Slot, m: nat)
    requires Usable(ms, q, m) && q1 == RunSlots(ms, q, front)
    ensures |q1.sessions| == |ms|
    ensures MemberRuns(ms, q, front + [slot], m)
         == MemberRuns(ms, q, front, m) + if slot.member == m then CallRuns(ms, q1, slot) else []
  {
    SlotsFromAny(ms, q, m, front);
    var s, s1, knobs := q.sessions[m], q1.sessions[m], ms[m].x.Knobs();
    var a, b := MemberKeys(ms, m, front), KeysFor(ms, m, slot);
    FromOf(s, s1, knobs, a);
    FlatMore((x: Slot) => KeysFor(ms, m, x), front, slot);
    WorkedTwice(a, b, DoneSet(s.df, knobs), Lasting(s.df, knobs), DoneSet(s1.df, knobs), Lasting(s1.df, knobs));
    KeysOfOthers(ms, m, slot);
  }

  ghost predicate LogsEach(ms: seq<Member>, q: State, slots: seq<Slot>, ran: seq<Ticket>)
    requires |ms| == |q.sessions|
  {
    forall m: nat :: OfMember(ran, m) == if m < |ms| then MemberRuns(ms, q, slots, m) else []
  }

  lemma LogsMore(ms: seq<Member>, q: State, q1: State, front: seq<Slot>, slot: Slot, slots: seq<Slot>,
                 ran: seq<Ticket>, ran': seq<Ticket>)
    requires AllUsable(ms, q) && q1 == RunSlots(ms, q, front) && |q1.sessions| == |ms| && LogsEach(ms, q, front, ran)
    requires slots == front + [slot] && ran' == ran + Tag(slot.member, CallRuns(ms, q1, slot))
    ensures LogsEach(ms, q, slots, ran')
  {
    var more := Tag(slot.member, CallRuns(ms, q1, slot));
    forall m: nat ensures OfMember(ran', m) == if m < |ms| then MemberRuns(ms, q, slots, m) else [] {
      OfMemberConcat(ran, more, m);
      OfMemberTag(slot.member, CallRuns(ms, q1, slot), m);
      if m < |ms| {
        assert Usable(ms, q, m);
        MemberMore(ms, q, q1, front, slot, m);
      }
    }
  }

  lemma NoneLogged(ms: seq<Member>, q: State)
    requires AllUsable(ms, q)
    ensures LogsEach(ms, q, [], [])
  {
    forall m: nat | m < |ms| ensures MemberRuns(ms, q, [], m) == [] {
      assert MemberKeys(ms, m, []) == [];
    }
  }

  lemma AppendTwice<T>(l0: seq<T>, l1: seq<T>, l2: seq<T>, a: seq<T>, b: seq<T>, ab: seq<T>)
    requires l1 == l0 + a && l2 == l1 + b && ab == a + b
    ensures l2 == l0 + ab
  {
  }

  lemma SlotsLogMore(ms: seq<Member>, q: State, front: seq<Slot>, slot: Slot, q1: State, q2: State,
                     slots: seq<Slot>, earlier: seq<Ticket>, ran: seq<Ticket>)
    requires AllUsable(ms, q) && q1 == RunSlots(ms, q, front) && AllUsable(ms, q1) && q2 == RunSlot(ms, q1, slot)
    requires q1.log == q.log + earlier && LogsEach(ms, q, front, earlier)
    requires slots == front + [slot] && ran == earlier + Tag(slot.member, CallRuns(ms, q1, slot))
    ensures q2.log == q.log + ran
    ensures LogsEach(ms, q, slots, ran)
  {
    SlotLogs(ms, q1, slot, q2);
    AppendTwice(q.log, q1.log, q2.log, earlier, Tag(slot.member, CallRuns(ms, q1, slot)), ran);
    LogsMore(ms, q, q1, front, slot, slots, earlier, ran);
  }

  ghost predicate LogIs(ms: seq<Member>, q: State, slots: seq<Slot>, q': State, ran: seq<Ticket>) {
    |ms| == |q.sessions| && q'.log == q.log + ran && LogsEach(ms, q, slots, ran)
  }

  ghost function HasLog(ms: seq<Member>, q: State): (seq<Slot>, State) -> bool {
    (slots: seq<Slot>, s: State) => exists ran :: LogIs(ms, q, slots, s, ran)
  }

  lemma LogCarries(ms: seq<Member>, q: State, front: seq<Slot>, slot: Slot, q1: State)
    requires AllUsable(ms, q) && q1 == RunSlots(ms, q, front) && HasLog(ms, q)(front, q1)
    ensures HasLog(ms, q)(front + [slot], RunSlot(ms, q1, slot))
  {
    var earlier :| LogIs(ms, q, front, q1, earlier);
    SlotsUsable(ms, q, front);
    var ran := earlier + Tag(slot.member, CallRuns(ms, q1, slot));
    SlotsLogMore(ms, q, front, slot, q1, RunSlot(ms, q1, slot), front + [slot], earlier, ran);
    assert LogIs(ms, q, front + [slot], RunSlot(ms, q1, slot), ran);
  }

  lemma LogStarts(ms: seq<Member>, q: State)
    requires AllUsable(ms, q)
    ensures HasLog(ms, q)([], q)
  {
    NoneLogged(ms, q);
    assert q.log == q.log + [] && LogIs(ms, q, [], q, []);
  }

  /** Over any calls, the log gains each member's runs, in that member's order. */
  lemma SlotsLog(ms: seq<Member>, q: State, slots: seq<Slot>) returns (ran: seq<Ticket>)
    requires AllUsable(ms, q)
    ensures RunSlots(ms, q, slots).log == q.log + ran
    ensures LogsEach(ms, q, slots, ran)
  {
    LogStarts(ms, q);
    forall front, slot ensures CarriesOn(Stepper(ms), q, HasLog(ms, q), front, slot) {
      if HasLog(ms, q)(front, RunSlots(ms, q, front)) {
        LogCarries(ms, q, front, slot, RunSlots(ms, q, front));
      }
    }
    FoldKeeps(Stepper(ms), q, HasLog(ms, q), slots);
    ran :| LogIs(ms, q, slots, RunSlots(ms, q, slots), ran);
  }

  // ----- exactly the missing runs -----

  lemma ExactMember(ms: seq<Member>, q: State, slots: seq<Slot>, m: nat)
    requires Usable(ms, q, m)
    ensures
      var df, knobs := q.sessions[m].df, ms[m].x.Knobs();
      ExactFor(ms, q, slots, m)
      <==> MemberRuns(ms, q, slots, m) == Missing(MemberKeys(ms, m, slots), DoneSet(df, knobs))
  {
    var df, knobs := q.sessions[m].df, ms[m].x.Knobs();
    WorkedIsMissing(MemberKeys(ms, m, slots), DoneSet(df, knobs), Lasting(df, knobs));
  }

  /** The runs asked for and not done, and no others. */
  ghost predicate JustMissing(ms: seq<Member>, q: State, slots: seq<Slot>, ran: seq<Ticket>) {
    forall t :: t in ran <==> t in AllTickets(ms, slots) && t !in DoneAll(ms, q)
  }

  lemma DoneTicket(ms: seq<Member>, q: State, t: Ticket)
    requires t.member < |ms| == |q.sessions|
    ensures t in DoneAll(ms, q) <==> t.key in DoneSet(q.sessions[t.member].df, ms[t.member].x.Knobs())
  {
  }

  lemma ExactTickets(ms: seq<Member>, q: State, slots: seq<Slot>, ran: seq<Ticket>)
    requires AllUsable(ms, q) && LogsEach(ms, q, slots, ran) && AllExact(ms, q, slots)
    ensures JustMissing(ms, q, slots, ran)
  {
    forall t ensures t in ran <==> t in AllTickets(ms, slots) && t !in DoneAll(ms, q) {
      InLog(ran, t);
      SlotsAsk(ms, t.member, slots, t.key);
      if t.member < |ms| {
        assert Usable(ms, q, t.member) && ExactFor(ms, q, slots, t.member);
        ExactMember(ms, q, slots, t.member);
        MissingMembers(MemberKeys(ms, t.member, slots), DoneSet(q.sessions[t.member].df, ms[t.member].x.Knobs()),
            t.key);
        DoneTicket(ms, q, t);
      } else {
        OutsideAsksNothing(ms, t.member, slots);
      }
    }
  }

  lemma {:induction false} OutsideAsksNothing(ms: seq<Member>, m: nat, slots: seq<Slot>)
    requires m >= |ms|
    ensures MemberKeys(ms, m, slots) == []
  {
    if slots != [] {
      OutsideAsksNothing(ms, m, slots[..|slots| - 1]);
    }
  }

  lemma ExactNeeded(ms: seq<Member>, q: State, slots: seq<Slot>, ran: seq<Ticket>, m: nat)
    requires AllUsable(ms, q) && LogsEach(ms, q, slots, ran) && JustMissing(ms, q, slots, ran) && m < |ms|
    ensures ExactFor(ms, q, slots, m)
  {
    if !ExactFor(ms, q, slots, m) {
      var df, knobs := q.sessions[m].df, ms[m].x.Knobs();
      var key := UndoneIsWorked(MemberKeys(ms, m, slots), DoneSet(df, knobs), Lasting(df, knobs));
      var t := Ticket(m, key);
      assert OfMember(ran, m) == MemberRuns(ms, q, slots, m);
      InLog(ran, t);
      DoneTicket(ms, q, t);
    }
  }

  lemma RanDistinct(ms: seq<Member>, q: State, slots: seq<Slot>, ran: seq<Ticket>)
    requires |ms| == |q.sessions| && LogsEach(ms, q, slots, ran)
    ensures Distinct(ran)
  {
    forall m: nat ensures Distinct(OfMember(ran, m)) {
      assert OfMember(ran, m) == if m < |ms| then MemberRuns(ms, q, slots, m) else [];
      if m < |ms| {
        var df, knobs := q.sessions[m].df, ms[m].x.Knobs();
        WorkedDistinct(MemberKeys(ms, m, slots), DoneSet(df, knobs), Lasting(df, knobs));
      }
    }
    DistinctLog(ran);
  }

  /**
   From any CSVs, the queue executes no run twice; it executes each run that its experiments ask
   for and that no CSV has, and no other, if and only if for each member it comes to no done
   run behind the first missing one that this one undoes.
   */
  lemma EachMissingIff(ms: seq<Member>, q: State, groups: nat) returns (ran: seq<Ticket>)
    requires AllUsable(ms, q)
    ensures RunGroups(ms, q, groups).log == q.log + ran && Distinct(ran)
    ensures (forall t :: t in ran <==> Wanted(ms, groups, t) && t !in DoneAll(ms, q))
       <==> AllExact(ms, q, AllSlots(ms, groups))
  {
    var slots := AllSlots(ms, groups);
    GroupsAreSlots(ms, q, groups);
    ran := SlotsLog(ms, q, slots);
    RanDistinct(ms, q, slots, ran);
    forall t ensures t in AllTickets(ms, slots) <==> Wanted(ms, groups, t) {
      QueueTickets(ms, groups, t);
    }
    if AllExact(ms, q, slots) {
      ExactTickets(ms, q, slots, ran);
    }
    if JustMissing(ms, q, slots, ran) {
      forall m | 0 <= m < |ms| ensures ExactFor(ms, q, slots, m) {
        ExactNeeded(ms, q, slots, ran, m);
      }
    }
  }

  // ----- and in the order of the schedule -----

  /** What a member executes after some calls is what these leave missing. */
  lemma CallIsMissing(a: seq<Key>, b: seq<Key>, d0: iset<Key>, k0: iset<Key>, d1: iset<Key>, k1: iset<Key>)
    requires k0 <= d0 && NoneUndone(a + b, d0, k0) && Left(Worked(a, d0, k0), d0, k0, d1, k1)
    ensures Worked(b, d1, k1) == Missing(b, d0 + Members(a))
  {
    NoneUndonePrefix(a, b, d0, k0);
    WorkedIsMissing(a, d0, k0);
    WorkedIsMissing(a + b, d0, k0);
    WorkedTwice(a, b, d0, k0, d1, k1);
    MissingConcat(a, b, d0);
    SamePrefix(Missing(a, d0), Worked(b, d1, k1), Missing(b, d0 + Members(a)));
  }

  lemma CallTickets(ms: seq<Member>, q: State, q1: State, front: seq<Slot>, slot: Slot)
    requires AllUsable(ms, q) && q1 == RunSlots(ms, q, front) && |q1.sessions| == |ms|
    requires AllExact(ms, q, front + [slot])
    ensures Tag(slot.member, CallRuns(ms, q1, slot))
         == Missing(SlotTickets(ms, slot), DoneAll(ms, q) + Members(AllTickets(ms, front)))
  {
    if Names(ms, slot) {
      var m := slot.member;
      assert Usable(ms, q, m) && ExactFor(ms, q, front + [slot], m);
      SlotsFromAny(ms, q, m, front);
      var s, s1, knobs := q.sessions[m], q1.sessions[m], ms[m].x.Knobs();
      var a, b := MemberKeys(ms, m, front), KeysFor(ms, m, slot);
      FromOf(s, s1, knobs, a);
      FlatMore((x: Slot) => KeysFor(ms, m, x), front, slot);
      CallIsMissing(a, b, DoneSet(s.df, knobs), Lasting(s.df, knobs), DoneSet(s1.df, knobs), Lasting(s1.df, knobs));
      forall key ensures key in DoneSet(s.df, knobs) + Members(a)
                    <==> Ticket(m, key) in DoneAll(ms, q) + Members(AllTickets(ms, front)) {
        DoneTicket(ms, q, Ticket(m, key));
        SlotsAsk(ms, m, front, key);
      }
      TagMissing(m, b, DoneSet(s.df, knobs) + Members(a), DoneAll(ms, q) + Members(AllTickets(ms, front)));
    }
  }

  lemma ExactPrefix(ms: seq<Member>, q: State, front: seq<Slot>, slot: Slot)
    requires |ms| == |q.sessions| && AllExact(ms, q, front + [slot])
    ensures AllExact(ms, q, front)
  {
    forall m | 0 <= m < |ms| ensures ExactFor(ms, q, front, m) {
      assert ExactFor(ms, q, front + [slot], m);
      var df, knobs := q.sessions[m].df, ms[m].x.Knobs();
      FlatMore((x: Slot) => KeysFor(ms, m, x), front, slot);
      NoneUndonePrefix(MemberKeys(ms, m, front), KeysFor(ms, m, slot), DoneSet(df, knobs), Lasting(df, knobs));
    }
  }

  /** What some calls ask for in order, without what is done. */
  ghost function Asked(ms: seq<Member>, q: State, slots: seq<Slot>): seq<Ticket> {
    Missing(AllTickets(ms, slots), DoneAll(ms, q))
  }

  lemma AskedMore(ms: seq<Member>, q: State, q1: State, front: seq<Slot>, slot: Slot, slots: seq<Slot>)
    requires AllUsable(ms, q) && q1 == RunSlots(ms, q, front) && |q1.sessions| == |ms|
    requires slots == front + [slot] && AllExact(ms, q, slots)
    ensures Asked(ms, q, slots) == Asked(ms, q, front) + Tag(slot.member, CallRuns(ms, q1, slot))
  {
    CallTickets(ms, q, q1, front, slot);
    FlatMore((x: Slot) => SlotTickets(ms, x), front, slot);
    MissingConcat(AllTickets(ms, front), SlotTickets(ms, slot), DoneAll(ms, q));
  }

  lemma {:induction false} SlotsInOrder(ms: seq<Member>, q: State, slots: seq<Slot>)
    requires AllUsable(ms, q) && AllExact(ms, q, slots)
    ensures RunSlots(ms, q, slots).log == q.log + Asked(ms, q, slots)
  {
    if slots == [] {
      assert AllTickets(ms, slots) == [];
    } else {
      var front, slot := slots[..|slots| - 1], slots[|slots| - 1];
      var q1, q2 := RunSlots(ms, q, front), RunSlots(ms, q, slots);
      assert front + [slot] == slots;
      ExactPrefix(ms, q, front, slot);
      SlotsInOrder(ms, q, front);
      FoldOneMore(Stepper(ms), q, front, slot);
      SlotsUsable(ms, q, front);
      SlotLogs(ms, q1, slot, q2);
      AskedMore(ms, q, q1, front, slot, slots);
      AppendTwice(q.log, q1.log, q2.log, Asked(ms, q, front), Tag(slot.member, CallRuns(ms, q1, slot)),
          Asked(ms, q, slots));
    }
  }

  /** Without repetition, the targets not done are those of the log. */
  lemma TargetsAsked(ms: seq<Member>, groups: nat, done: iset<Ticket>)
    requires Valid(ms) && AllSimple(ms)
    ensures Missing(AllTickets(ms, AllSlots(ms, groups)), done) == Undone(Targets(ms, AllSlots(ms, groups)), done)
  {
    var slots := AllSlots(ms, groups);
    GroupsEffect(ms, groups, done);
    AllSlotsDistinct(ms, groups);
    forall s <- slots ensures Names(ms, s) {
      AllSlotsMembers(ms, groups, s);
    }
    TargetsDistinct(ms, slots);
    MissingIsUndone(Targets(ms, slots), done);
  }

  /**
   From any CSVs, the queue executes the runs that no CSV has in the order of its schedule, each
   once, group by group and within a group by rep, point and member, if and only if for each
   member it comes to no done run behind the first missing one that this one undoes.
   */
  lemma LexicographicIff(ms: seq<Member>, q: State, groups: nat)
    requires AllUsable(ms, q) && AllSimple(ms)
    ensures RunGroups(ms, q, groups).log == q.log + Undone(Targets(ms, AllSlots(ms, groups)), DoneAll(ms, q))
       <==> AllExact(ms, q, AllSlots(ms, groups))
  {
    var slots := AllSlots(ms, groups);
    TargetsAsked(ms, groups, DoneAll(ms, q));
    GroupsAreSlots(ms, q, groups);
    if AllExact(ms, q, slots) {
      SlotsInOrder(ms, q, slots);
    } else {
      var ran := SlotsLog(ms, q, slots);
      var asked := Missing(AllTickets(ms, slots), DoneAll(ms, q));
      if q.log + ran == q.log + asked {
        assert (q.log + ran)[|q.log|..] == ran && (q.log + asked)[|q.log|..] == asked;
        forall t ensures t in asked <==> t in AllTickets(ms, slots) && t !in DoneAll(ms, q) {
          MissingMembers(AllTickets(ms, slots), DoneAll(ms, q), t);
        }
        forall m | 0 <= m < |ms| ensures ExactFor(ms, q, slots, m) {
          ExactNeeded(ms, q, slots, ran, m);
        }
        assert false;
      }
    }
  }
}
