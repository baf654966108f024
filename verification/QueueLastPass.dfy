/** What the pass over whole experiments at the end of the queue starts, on CSVs of any columns. */
module QueueLastPass {
  import opened Folds
  import opened Worklist
  import opened Sweeps
  import opened Experiments
  import opened ExperimentRuns
  import opened Queue
  import opened QueueRuns
  import opened QueueFromAny

  /** Over the queue, whatever a first run undid of the member's was executed again behind it. */
  ghost predicate SettledBy(ms: seq<Member>, q: State, groups: nat, member: nat)
    requires member < |ms| == |q.sessions|
  {
    var df, knobs := q.sessions[member].df, ms[member].x.Knobs();
    Settled(WholeQueue(ms, member, groups), DoneSet(df, knobs), Lasting(df, knobs))
  }

  // ----- the pass asks for the queue's runs -----

  /** What the pass asks of one member. */
  function PassKeys(ms: seq<Member>, member: nat): seq<Key>
    requires Valid(ms) && member < |ms|
  {
    KeysAll(Calls(ms[member].x, ms[member].x.points, ms[member].reps))
  }

  lemma PassAsks(ms: seq<Member>, member: nat, groups: nat, key: Key)
    requires Valid(ms) && member < |ms| && ms[member].group < groups
    ensures key in PassKeys(ms, member) <==> Wanted(ms, groups, Ticket(member, key))
  {
    var m, t := ms[member], Ticket(member, key);
    InvocationKeys(m.x, m.x.points, m.reps, key);
    if key in PassKeys(ms, member) {
      KeyWanted(ms, groups, t);
    }
    if Wanted(ms, groups, t) {
      var i :| 0 <= i < |m.x.points| && PointAsks(m, i, key);
      assert m.x.points[i] in m.x.points;
    }
  }

  lemma SameAsks(ms: seq<Member>, member: nat, groups: nat)
    requires Valid(ms) && member < |ms| && ms[member].group < groups
    ensures forall key :: key in PassKeys(ms, member) <==> key in WholeQueue(ms, member, groups)
  {
    forall key ensures key in PassKeys(ms, member) <==> key in WholeQueue(ms, member, groups) {
      QueueAsks(ms, member, groups, key);
      PassAsks(ms, member, groups, key);
    }
  }

  // ----- the pass, member by member -----

  /** A member's session after its turn in the pass. */
  function Passed(ms: seq<Member>, s: Session, member: nat): Session
    requires Valid(ms) && member < |ms|
  {
    Invoked(s, Calls(ms[member].x, ms[member].x.points, ms[member].reps), ms[member].bench)
  }

  lemma OneTurn(ms: seq<Member>, q: State, turn: nat)
    requires Valid(ms) && turn < |ms| == |q.sessions|
    ensures
      var s, s' := q.sessions[turn], Passed(ms, q.sessions[turn], turn);
      RunAll(ms, q, turn) == State(q.sessions[turn := s'], q.log + Tag(turn, Since(s', |RanKeys(s.ran)|)))
  {
  }

  /** A member's turn starts no run. */
  predicate Idle(ms: seq<Member>, q: State, member: nat)
    requires Valid(ms) && member < |ms| == |q.sessions|
  {
    RanKeys(Passed(ms, q.sessions[member], member).ran) == RanKeys(q.sessions[member].ran)
  }

  lemma PassWorks(ms: seq<Member>, q: State, member: nat)
    requires Usable(ms, q, member)
    ensures WorkedFrom(q.sessions[member], Passed(ms, q.sessions[member], member), ms[member].x.Knobs(),
        PassKeys(ms, member))
  {
    InvocationFromAny(q.sessions[member], ms[member].x, ms[member].x.points, ms[member].reps, ms[member].bench);
  }

  lemma TagSize(member: nat, keys: seq<Key>)
    ensures Tag(member, keys) == [] <==> keys == []
  {
  }

  lemma TurnLogs(ms: seq<Member>, q: State, member: nat)
    requires Usable(ms, q, member)
    ensures Tag(member, Since(Passed(ms, q.sessions[member], member), |RanKeys(q.sessions[member].ran)|)) == []
       <==> Idle(ms, q, member)
  {
    PassWorks(ms, q, member);
    var before, after := RanKeys(q.sessions[member].ran), RanKeys(Passed(ms, q.sessions[member], member).ran);
    TagSize(member, after[|before|..]);
  }

  /** After `k` turns of the pass. */
  ghost predicate PassTo(ms: seq<Member>, q: State, k: nat, s: State)
    requires Valid(ms) && |ms| == |q.sessions| && k <= |ms|
  {
    && |s.sessions| == |ms|
    && (forall m :: 0 <= m < |ms| ==> s.sessions[m] == if m < k then Passed(ms, q.sessions[m], m) else q.sessions[m])
    && |s.log| >= |q.log| && (s.log == q.log <==> forall m :: 0 <= m < k ==> Idle(ms, q, m))
  }

  lemma PassStep(ms: seq<Member>, q: State, k: nat, s: State, s': State)
    requires AllUsable(ms, q) && k < |ms| && PassTo(ms, q, k, s) && s' == RunAll(ms, s, k)
    ensures PassTo(ms, q, k + 1, s')
  {
    assert Usable(ms, q, k);
    TurnLogs(ms, q, k);
    OneTurn(ms, s, k);
    PassStepOn(ms, q, k, s, s', Tag(k, Since(Passed(ms, q.sessions[k], k), |RanKeys(q.sessions[k].ran)|)));
  }

  lemma PassStepOn(ms: seq<Member>, q: State, k: nat, s: State, s': State, more: seq<Ticket>)
    requires Valid(ms) && |ms| == |q.sessions| && k < |ms| && PassTo(ms, q, k, s)
    requires s' == State(s.sessions[k := Passed(ms, q.sessions[k], k)], s.log + more)
    requires more == [] <==> Idle(ms, q, k)
    ensures PassTo(ms, q, k + 1, s')
  {
  }

  function Turns(ms: seq<Member>): (State, nat) -> State { (s: State, k: nat) => RunAll(ms, s, k) }

  function Pass(ms: seq<Member>, q: State): nat -> State { (k: nat) => Final(ms, q, k) }

  ghost function PassHolds(ms: seq<Member>, q: State): (nat, State) -> bool {
    (k: nat, s: State) => Valid(ms) && |ms| == |q.sessions| && k <= |ms| && PassTo(ms, q, k, s)
  }

  lemma TurnLeads(ms: seq<Member>, q: State, k: nat)
    ensures Leads(Pass(ms, q), Turns(ms), k)
  {
  }

  lemma TurnCarries(ms: seq<Member>, q: State, k: nat, s: State)
    requires AllUsable(ms, q) && k < |ms|
    ensures Carries(Turns(ms), PassHolds(ms, q), k, s)
  {
    if PassHolds(ms, q)(k, s) {
      PassStep(ms, q, k, s, Turns(ms)(s, k));
    }
  }

  lemma PassStarts(ms: seq<Member>, q: State)
    requires AllUsable(ms, q)
    ensures PassHolds(ms, q)(0, Pass(ms, q)(0))
  {
  }

  lemma FinalPass(ms: seq<Member>, q: State)
    requires AllUsable(ms, q)
    ensures PassHolds(ms, q)(|ms|, Pass(ms, q)(|ms|))
  {
    PassStarts(ms, q);
    forall k: nat | k < |ms| ensures Leads(Pass(ms, q), Turns(ms), k) {
      TurnLeads(ms, q, k);
    }
    forall k: nat, s | k < |ms| ensures Carries(Turns(ms), PassHolds(ms, q), k, s) {
      TurnCarries(ms, q, k, s);
    }
    StepByStep(Pass(ms, q), Turns(ms), PassHolds(ms, q), |ms|);
  }

  lemma PassLogs(ms: seq<Member>, q: State)
    requires AllUsable(ms, q)
    ensures Final(ms, q, |ms|).log == q.log <==> forall m :: 0 <= m < |ms| ==> Idle(ms, q, m)
  {
    FinalPass(ms, q);
    assert PassTo(ms, q, |ms|, Pass(ms, q)(|ms|));
  }

  lemma QueueKeepsUsable(ms: seq<Member>, q: State, groups: nat)
    requires AllUsable(ms, q)
    ensures AllUsable(ms, RunGroups(ms, q, groups))
  {
    GroupsAreSlots(ms, q, groups);
    SlotsUsable(ms, q, AllSlots(ms, groups));
  }

  lemma IdleIff(ms: seq<Member>, q: State, groups: nat, member: nat)
    requires Usable(ms, q, member) && ms[member].group < groups
    ensures Usable(ms, RunGroups(ms, q, groups), member)
    ensures Idle(ms, RunGroups(ms, q, groups), member) <==> SettledBy(ms, q, groups, member)
  {
    var done := RunGroups(ms, q, groups);
    GroupsAreSlots(ms, q, groups);
    SlotsFromAny(ms, q, member, AllSlots(ms, groups));
    PassWorks(ms, done, member);
    SameAsks(ms, member, groups);
    AgainFrom(q.sessions[member], done.sessions[member], Passed(ms, done.sessions[member], member),
        ms[member].x.Knobs(),
              WholeQueue(ms, member, groups), PassKeys(ms, member));
  }

  /**
   From any CSVs, the pass over whole experiments starts no run, and so only plots, if and only
   if for each member nothing was missing or every run that its first run undid was executed
   again behind it.
   */
  lemma LastPassIff(ms: seq<Member>, q: State, groups: nat)
    requires AllUsable(ms, q) && forall m :: 0 <= m < |ms| ==> ms[m].group < groups
    ensures
      var done := RunGroups(ms, q, groups);
      Final(ms, done, |ms|).log == done.log <==> forall m :: 0 <= m < |ms| ==> SettledBy(ms, q, groups, m)
  {
    var done := RunGroups(ms, q, groups);
    QueueKeepsUsable(ms, q, groups);
    PassLogs(ms, done);
    forall m | 0 <= m < |ms| ensures Idle(ms, done, m) <==> SettledBy(ms, q, groups, m) {
      IdleIff(ms, q, groups, m);
    }
  }

  /** All of the member's runs are done. */
  ghost predicate MemberDone(ms: seq<Member>, q: State, keys: seq<Key>, m: nat)
    requires m < |ms| == |q.sessions|
  {
    forall key <- keys :: key in DoneSet(q.sessions[m].df, ms[m].x.Knobs())
  }

  lemma MemberDoneIff(ms: seq<Member>, q: State, groups: nat, m: nat)
    requires Usable(ms, q, m)
    ensures |RunGroups(ms, q, groups).sessions| == |ms|
    ensures MemberDone(ms, RunGroups(ms, q, groups), WholeQueue(ms, m, groups), m) <==> SettledBy(ms, q, groups, m)
  {
    var keys, knobs := WholeQueue(ms, m, groups), ms[m].x.Knobs();
    var done := RunGroups(ms, q, groups);
    GroupsAreSlots(ms, q, groups);
    SlotsFromAny(ms, q, m, AllSlots(ms, groups));
    FromOf(q.sessions[m], done.sessions[m], knobs, keys);
    SettledIsDone(keys, DoneSet(q.sessions[m].df, knobs), Lasting(q.sessions[m].df, knobs),
                  DoneSet(done.sessions[m].df, knobs));
  }

  /** And exactly then all runs that the experiments ask for are done when the queue is through. */
  lemma AllDoneIff(ms: seq<Member>, q: State, groups: nat)
    requires AllUsable(ms, q)
    ensures (forall t :: Wanted(ms, groups, t) ==> t in DoneAll(ms, RunGroups(ms, q, groups)))
       <==> forall m :: 0 <= m < |ms| ==> SettledBy(ms, q, groups, m)
  {
    var done := RunGroups(ms, q, groups);
    QueueKeepsUsable(ms, q, groups);
    forall m | 0 <= m < |ms|
      ensures MemberDone(ms, done, WholeQueue(ms, m, groups), m) <==> SettledBy(ms, q, groups, m)
    {
      assert Usable(ms, q, m);
      MemberDoneIff(ms, q, groups, m);
    }
    WantedDone(ms, done, groups);
  }

  lemma WantedDone(ms: seq<Member>, q: State, groups: nat)
    requires Valid(ms) && |ms| == |q.sessions|
    ensures (forall t :: Wanted(ms, groups, t) ==> t in DoneAll(ms, q))
       <==> forall m :: 0 <= m < |ms| ==> MemberDone(ms, q, WholeQueue(ms, m, groups), m)
  {
    forall t: Ticket | t.member < |ms| ensures t.key in WholeQueue(ms, t.member, groups) <==> Wanted(ms, groups, t) {
      QueueAsks(ms, t.member, groups, t.key);
    }
    if forall t :: Wanted(ms, groups, t) ==> t in DoneAll(ms, q) {
      forall m, key | 0 <= m < |ms| && key in WholeQueue(ms, m, groups)
        ensures key in DoneSet(q.sessions[m].df, ms[m].x.Knobs())
      {
        assert Wanted(ms, groups, Ticket(m, key)) && Ticket(m, key) in DoneAll(ms, q);
      }
    }
    if forall m :: 0 <= m < |ms| ==> MemberDone(ms, q, WholeQueue(ms, m, groups), m) {
      forall t | Wanted(ms, groups, t) ensures t in DoneAll(ms, q) {
        assert MemberDone(ms, q, WholeQueue(ms, t.member, groups), t.member);
      }
    }
  }
}
