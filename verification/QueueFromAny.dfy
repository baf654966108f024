/** The interleaved queue on CSVs that may lack a column for a knob. */
module QueueFromAny {
  import opened Folds
  import opened Worklist
  import opened Sweeps
  import opened Experiments
  import opened ExperimentRuns
  import opened Queue
  import opened QueueRuns

  /** What a queue call asks of one member. */
  function KeysFor(ms: seq<Member>, member: nat, slot: Slot): seq<Key> {
    if Valid(ms) && Names(ms, slot) && slot.member == member
    then KeysAll(Calls(ms[member].x, PointsAt(ms[member].x, slot.i), slot.rep))
    else []
  }

  function MemberKeys(ms: seq<Member>, member: nat, slots: seq<Slot>): seq<Key> {
    Flat((slot: Slot) => KeysFor(ms, member, slot), slots)
  }

  /** The member's CSV is one, and its bench keeps the query. */
  ghost predicate Usable(ms: seq<Member>, q: State, member: nat) {
    && Valid(ms) && member < |ms| == |q.sessions|
    && q.sessions[member].df.Valid() && Faithful(ms[member].bench, ms[member].x.axis)
  }

  /** Every CSV is one, and the benches keep the query. */
  ghost predicate AllUsable(ms: seq<Member>, q: State) {
    && Valid(ms) && |ms| == |q.sessions|
    && forall m :: 0 <= m < |ms| ==> Usable(ms, q, m)
  }

  lemma SlotFromAny(ms: seq<Member>, q: State, member: nat, slot: Slot)
    requires Usable(ms, q, member)
    ensures WorkedFrom(q.sessions[member], RunSlot(ms, q, slot).sessions[member], ms[member].x.Knobs(),
        KeysFor(ms, member, slot))
    ensures Usable(ms, RunSlot(ms, q, slot), member)
  {
    var x := ms[member].x;
    if Names(ms, slot) && slot.member == member {
      InvocationFromAny(q.sessions[member], x, PointsAt(x, slot.i), slot.rep, ms[member].bench);
    } else {
      NothingWorked(q.sessions[member], q.sessions[member], x.Knobs());
    }
  }

  lemma {:induction false} SlotsFromAny(ms: seq<Member>, q: State, member: nat, slots: seq<Slot>)
    requires Usable(ms, q, member)
    ensures Usable(ms, RunSlots(ms, q, slots), member)
    ensures WorkedFrom(q.sessions[member], RunSlots(ms, q, slots).sessions[member], ms[member].x.Knobs(),
                       MemberKeys(ms, member, slots))
  {
    if slots == [] {
      NothingWorked(q.sessions[member], q.sessions[member], ms[member].x.Knobs());
    } else {
      var n := |slots| - 1;
      var before := RunSlots(ms, q, slots[..n]);
      SlotsFromAny(ms, q, member, slots[..n]);
      SlotFromAny(ms, before, member, slots[n]);
      WorkedFromTwice(q.sessions[member], before.sessions[member], RunSlot(ms, before, slots[n]).sessions[member],
                      ms[member].x.Knobs(), MemberKeys(ms, member, slots[..n]), KeysFor(ms, member, slots[n]));
    }
  }

  lemma {:induction false} SlotsKeepSize(ms: seq<Member>, q: State, slots: seq<Slot>)
    ensures |RunSlots(ms, q, slots).sessions| == |q.sessions|
  {
    if slots != [] {
      SlotsKeepSize(ms, q, slots[..|slots| - 1]);
    }
  }

  lemma SlotsUsable(ms: seq<Member>, q: State, slots: seq<Slot>)
    requires AllUsable(ms, q)
    ensures AllUsable(ms, RunSlots(ms, q, slots))
  {
    SlotsKeepSize(ms, q, slots);
    forall m | 0 <= m < |ms| ensures Usable(ms, RunSlots(ms, q, slots), m) {
      SlotsFromAny(ms, q, m, slots);
    }
  }

  /** The runs of one member over the whole queue. */
  function WholeQueue(ms: seq<Member>, member: nat, groups: nat): seq<Key> {
    MemberKeys(ms, member, AllSlots(ms, groups))
  }

  lemma KeysAreTickets(ms: seq<Member>, member: nat, slot: Slot, key: Key)
    ensures key in KeysFor(ms, member, slot) <==> Ticket(member, key) in SlotTickets(ms, slot)
  {
    if Valid(ms) && Names(ms, slot) {
      TagMembers(slot.member, KeysAll(Calls(ms[slot.member].x, PointsAt(ms[slot.member].x, slot.i), slot.rep)),
                 Ticket(member, key));
    }
  }

  lemma SlotsAsk(ms: seq<Member>, member: nat, slots: seq<Slot>, key: Key)
    ensures key in MemberKeys(ms, member, slots) <==> Ticket(member, key) in AllTickets(ms, slots)
  {
    FlatMembers((slot: Slot) => KeysFor(ms, member, slot), slots, key);
    FlatMembers((slot: Slot) => SlotTickets(ms, slot), slots, Ticket(member, key));
    forall slot <- slots ensures key in KeysFor(ms, member, slot) <==> Ticket(member, key) in SlotTickets(ms, slot) {
      KeysAreTickets(ms, member, slot, key);
    }
  }

  lemma QueueAsks(ms: seq<Member>, member: nat, groups: nat, key: Key)
    requires Valid(ms) && member < |ms|
    ensures key in WholeQueue(ms, member, groups) <==> Wanted(ms, groups, Ticket(member, key))
  {
    var slots := AllSlots(ms, groups);
    SlotsAsk(ms, member, slots, key);
    QueueTickets(ms, groups, Ticket(member, key));
  }

  /**
   Whatever columns its CSV has, a member executes over the queue what was missing and what
   its first run undid; that is exactly the missing runs, each once, if and only if behind the
   first missing run the queue does not come to a done one whose row lacks a knob that is not
   empty.
   */
  lemma QueueExactIff(ms: seq<Member>, q: State, groups: nat, member: nat)
    requires Usable(ms, q, member)
    ensures |RunGroups(ms, q, groups).sessions| == |ms|
    ensures
      var s, s' := q.sessions[member], RunGroups(ms, q, groups).sessions[member];
      var keys, knobs := WholeQueue(ms, member, groups), ms[member].x.Knobs();
      && WorkedFrom(s, s', knobs, keys)
      && (RanKeys(s'.ran) == RanKeys(s.ran) + Missing(keys, DoneSet(s.df, knobs))
          <==> NoneUndone(keys, DoneSet(s.df, knobs), Lasting(s.df, knobs)))
  {
    var s, knobs, keys := q.sessions[member], ms[member].x.Knobs(), WholeQueue(ms, member, groups);
    GroupsAreSlots(ms, q, groups);
    SlotsFromAny(ms, q, member, AllSlots(ms, groups));
    WorkedIsMissing(keys, DoneSet(s.df, knobs), Lasting(s.df, knobs));
    SamePrefix(RanKeys(s.ran), Worked(keys, DoneSet(s.df, knobs), Lasting(s.df, knobs)),
        Missing(keys, DoneSet(s.df, knobs)));
  }
}
