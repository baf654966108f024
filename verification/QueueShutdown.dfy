/**
 Shutting down a concurrent queue: one thread per member spawns a child, registers it in the
 shared table, polls it, and on a stop signal or past the deadline empties the table and
 ends what it found there. A step is one atomic action of a thread or of the environment. The
 group starts one batch of threads per rep and point over the same table and flag.
 */
module QueueShutdown {
  import opened Sums

  datatype Child = Child(owner: nat, exited: bool, taken: bool, late: bool)

  /** Where a member's thread is in its run; `k` numbers the child it is about. */
  datatype Pc =
    | NotStarted
    | Checking
    | Spawning
    | Registering(k: nat)
    | Polling(k: nat)
    | Deciding(k: nat)
    | Ending(k: nat)
    | Popping(k: nat)
    | Waiting
    | Returned

  /** `halt` is the stop flag or a passed deadline; neither is ever taken back. */
  datatype State = State(halt: bool, table: map<nat, nat>, children: seq<Child>, threads: seq<Pc>)

  /** What the environment decides for a step: whether a finished child means another attempt. */
  datatype Move = Thread(i: nat, again: bool) | Exit(k: nat) | Halt

  predicate Enabled(st: State, m: Move) {
    match m
    case Thread(i, _) =>
      && i < |st.threads| && !st.threads[i].Returned?
      && (st.threads[i].Polling? ==> st.threads[i].k < |st.children|)
    case Exit(k) => k < |st.children|
    case Halt => true
  }

  function At(st: State, i: nat, pc: Pc): State
    requires i < |st.threads|
  {
    st.(threads := st.threads[i := pc])
  }

  /** Everything the lock-holder finds in the table is taken, and the table is emptied. */
  function TakeAll(st: State): State {
    st.(table := map[],
        children := seq(|st.children|, k requires 0 <= k < |st.children| =>
          if k in st.table.Values then st.children[k].(taken := true) else st.children[k]))
  }

  function Step(st: State, m: Move): State
    requires Enabled(st, m)
  {
    match m
    case Halt => st.(halt := true)
    case Exit(k) => st.(children := st.children[k := st.children[k].(exited := true)])
    case Thread(i, again) => ThreadStep(st, i, again)
  }

  function ThreadStep(st: State, i: nat, again: bool): State
    requires Enabled(st, Thread(i, again))
  {
    match st.threads[i]
    case NotStarted => At(st, i, Checking)
    case Checking => At(st, i, if st.halt then Returned else Spawning)
    case Spawning =>
      At(st.(children := st.children + [Child(i, false, false, st.halt)]), i, Registering(|st.children|))
    case Registering(k) => At(st.(table := st.table[i := k]), i, Polling(k))
    case Polling(k) => At(st, i, if st.children[k].exited then Popping(k) else Deciding(k))
    case Deciding(k) => At(st, i, if st.halt then Ending(k) else Polling(k))
    case Ending(_) => At(TakeAll(st), i, Returned)
    case Popping(_) => At(st.(table := st.table - {i}), i, if again then Waiting else Returned)
    case Waiting => At(st, i, Checking)
  }

  ghost predicate Next(st: State, st': State) {
    exists m :: Moves(st, m, st')
  }

  ghost predicate Moves(st: State, m: Move, st': State) {
    Enabled(st, m) && st' == Step(st, m)
  }

  predicate Over(c: Child) { c.exited || c.taken }

  /** A batch of threads starts: nothing is registered, and no earlier child is left. */
  predicate Fresh(st: State) {
    && st.table == map[] && (forall c <- st.children :: Over(c))
    && (forall pc <- st.threads :: pc.NotStarted?)
  }

  ghost predicate Steps(run: seq<State>) {
    run != [] && forall k :: 0 < k < |run| ==> Next(run[k - 1], run[k])
  }

  /** The run of one batch, from any state that is fit for it, halted or not. */
  ghost predicate Run(run: seq<State>) { Steps(run) && Fresh(run[0]) }

  // ----- the invariant -----

  predicate HasChild(pc: Pc) {
    pc.Registering? || pc.Polling? || pc.Deciding? || pc.Ending? || pc.Popping?
  }

  /** The thread's child is its own, and if it still runs untaken it is in the table once registered. */
  predicate ThreadOk(base: nat, st: State, i: nat)
    requires i < |st.threads|
  {
    var pc := st.threads[i];
    && (HasChild(pc) ==> base <= pc.k < |st.children| && st.children[pc.k].owner == i)
    && (pc.Polling? || pc.Deciding? || pc.Ending? ==>
          Over(st.children[pc.k]) || (i in st.table && st.table[i] == pc.k))
    && (pc.Ending? ==> st.halt)
    && (pc.Popping? ==> st.children[pc.k].exited)
    && (i in st.table ==> (pc.Polling? || pc.Deciding? || pc.Ending? || pc.Popping?) && st.table[i] == pc.k)
  }

  /** A running, untaken child is the current child of its owner. */
  predicate ChildOk(base: nat, st: State, k: nat)
    requires k < |st.children|
  {
    var c := st.children[k];
    if k < base then Over(c)
    else
      && c.owner < |st.threads|
      && (Over(c) || (HasChild(st.threads[c.owner]) && st.threads[c.owner].k == k))
      && (c.late ==> st.halt && !st.threads[c.owner].Spawning? && !st.threads[c.owner].NotStarted?)
  }

  predicate LateOnce(base: nat, st: State) {
    forall j, k :: base <= j < k < |st.children| && st.children[j].late && st.children[k].late
      ==> st.children[j].owner != st.children[k].owner
  }

  /** The children from `base` on are this batch's, the others an earlier one's. */
  predicate Inv(base: nat, st: State) {
    && (forall i :: 0 <= i < |st.threads| ==> ThreadOk(base, st, i))
    && (forall i <- st.table.Keys :: i < |st.threads|)
    && base <= |st.children| && (forall k :: 0 <= k < |st.children| ==> ChildOk(base, st, k))
    && LateOnce(base, st)
  }

  lemma EndingInv(base: nat, st: State, i: nat, again: bool)
    requires Inv(base, st) && Enabled(st, Thread(i, again)) && st.threads[i].Ending?
    ensures Inv(base, ThreadStep(st, i, again))
  {
    var st' := ThreadStep(st, i, again);
    assert ThreadOk(base, st, i);
    forall j | 0 <= j < |st'.threads| ensures ThreadOk(base, st', j) {
      assert ThreadOk(base, st, j);
      if HasChild(st.threads[j]) && j in st.table {
        assert st.threads[j].k in st.table.Values;
      }
    }
    forall k | 0 <= k < |st'.children| ensures ChildOk(base, st', k) {
      assert ChildOk(base, st, k);
      if st.threads[i].k == k && i in st.table {
        assert k in st.table.Values;
      }
    }
  }

  lemma MoverOk(base: nat, st: State, i: nat, again: bool)
    requires Inv(base, st) && Enabled(st, Thread(i, again)) && !st.threads[i].Ending?
    ensures ThreadOk(base, ThreadStep(st, i, again), i)
  {
    assert ThreadOk(base, st, i);
  }

  lemma OthersOk(base: nat, st: State, i: nat, again: bool, j: nat)
    requires Inv(base, st) && Enabled(st, Thread(i, again)) && !st.threads[i].Ending?
    requires j < |st.threads| && j != i
    ensures ThreadOk(base, ThreadStep(st, i, again), j)
  {
    assert ThreadOk(base, st, j);
  }

  lemma ThreadKeepsChildren(base: nat, st: State, i: nat, again: bool, k: nat)
    requires Inv(base, st) && Enabled(st, Thread(i, again)) && !st.threads[i].Ending?
    requires k < |ThreadStep(st, i, again).children|
    ensures ChildOk(base, ThreadStep(st, i, again), k)
  {
    assert ThreadOk(base, st, i);
    if k < |st.children| {
      assert ChildOk(base, st, k);
    }
  }

  lemma SpawnKeepsLateOnce(base: nat, st: State, i: nat)
    requires Inv(base, st) && i < |st.threads| && st.threads[i].Spawning?
    ensures LateOnce(base, ThreadStep(st, i, false))
  {
    forall k | base <= k < |st.children| && st.children[k].late ensures st.children[k].owner != i {
      assert ChildOk(base, st, k);
    }
  }

  lemma ThreadInv(base: nat, st: State, i: nat, again: bool)
    requires Inv(base, st) && Enabled(st, Thread(i, again)) && !st.threads[i].Ending?
    ensures Inv(base, ThreadStep(st, i, again))
  {
    var st' := ThreadStep(st, i, again);
    forall j | 0 <= j < |st'.threads| ensures ThreadOk(base, st', j) {
      if j == i {
        MoverOk(base, st, i, again);
      } else {
        OthersOk(base, st, i, again, j);
      }
    }
    forall k | 0 <= k < |st'.children| ensures ChildOk(base, st', k) {
      ThreadKeepsChildren(base, st, i, again, k);
    }
    if st.threads[i].Spawning? {
      SpawnKeepsLateOnce(base, st, i);
    }
  }

  lemma StepInv(base: nat, st: State, st': State)
    requires Inv(base, st) && Next(st, st')
    ensures Inv(base, st')
  {
    var m :| Moves(st, m, st');
    match m
    case Thread(i, again) =>
      if st.threads[i].Ending? {
        EndingInv(base, st, i, again);
      } else {
        ThreadInv(base, st, i, again);
      }
    case _ =>
      forall j | 0 <= j < |st'.threads| ensures ThreadOk(base, st', j) {
        assert ThreadOk(base, st, j);
      }
      forall k | 0 <= k < |st'.children| ensures ChildOk(base, st', k) {
        assert ChildOk(base, st, k);
      }
  }

  lemma FreshInv(st: State)
    requires Fresh(st)
    ensures Inv(|st.children|, st)
  {
    forall i | 0 <= i < |st.threads| ensures ThreadOk(|st.children|, st, i) {
      assert st.threads[i] in st.threads;
    }
    forall k | 0 <= k < |st.children| ensures ChildOk(|st.children|, st, k) {
      assert st.children[k] in st.children;
    }
  }

  lemma {:induction false} RunInv(run: seq<State>)
    requires Run(run)
    ensures forall k :: 0 <= k < |run| ==> Inv(|run[0].children|, run[k])
  {
    FreshInv(run[0]);
    for k := 1 to |run|
      invariant forall j :: 0 <= j < k ==> Inv(|run[0].children|, run[j])
    {
      StepInv(|run[0].children|, run[k - 1], run[k]);
    }
  }

  predicate AllReturned(st: State) { forall pc <- st.threads :: pc.Returned? }

  /**
   When every thread of a batch has returned, each child ever spawned has exited by itself or
   was taken by some thread's clean-up, in every interleaving, including those in which one
   thread empties the table while another is between spawning and registering.
   */
  lemma NoChildLeft(run: seq<State>, k: nat)
    requires Run(run) && k < |run| && AllReturned(run[k])
    ensures forall c <- run[k].children :: Over(c)
    ensures run[k].table == map[]
  {
    RunInv(run);
    var st, base := run[k], |run[0].children|;
    forall c | c in st.children ensures Over(c) {
      var j :| 0 <= j < |st.children| && st.children[j] == c;
      assert ChildOk(base, st, j);
      if j >= base {
        assert st.threads[c.owner] in st.threads;
      }
    }
    forall i: nat ensures i !in st.table {
      if i < |st.threads| {
        assert ThreadOk(base, st, i) && st.threads[i] in st.threads;
      } else {
        assert i !in st.table.Keys;
      }
    }
  }

  /** After the stop or the deadline a member spawns at most one more child. */
  lemma AtMostOneLate(run: seq<State>, k: nat, a: nat, b: nat)
    requires Run(run) && k < |run| && |run[0].children| <= a < b < |run[k].children|
    requires run[k].children[a].late && run[k].children[b].late
    ensures run[k].children[a].owner != run[k].children[b].owner
  {
    RunInv(run);
    assert Inv(|run[0].children|, run[k]);
  }

  // ----- one batch after another -----

  /** Threads that were halted before they started spawn nothing. */
  predicate Idle(st: State) {
    st.halt && forall pc <- st.threads :: pc.NotStarted? || pc.Checking? || pc.Returned?
  }

  lemma IdleStep(st: State, st': State)
    requires Idle(st) && Next(st, st')
    ensures Idle(st') && |st'.children| == |st.children|
  {
    var m :| Moves(st, m, st');
    if m.Thread? {
      assert st.threads[m.i] in st.threads;
      forall pc | pc in st'.threads ensures pc.NotStarted? || pc.Checking? || pc.Returned? {
        assert pc in st.threads || pc == st'.threads[m.i];
      }
    }
  }

  /** A batch that starts after the stop or the deadline spawns no child. */
  lemma NothingAfterHalt(run: seq<State>, k: nat)
    requires Run(run) && run[0].halt && k < |run|
    ensures |run[k].children| == |run[0].children|
  {
    for j := 0 to k
      invariant Idle(run[j]) && |run[j].children| == |run[0].children|
    {
      IdleStep(run[j], run[j + 1]);
    }
  }

  function Final(run: seq<State>): State
    requires run != []
  {
    run[|run| - 1]
  }

  /**
   What the group keeps from one batch to the next once all threads have been joined: the
   table and the children, of which more may have exited, and a halt.
   */
  predicate Handover(a: State, b: State) {
    && AllReturned(a) && b.table == a.table && (a.halt ==> b.halt)
    && |b.children| == |a.children|
    && (forall k :: 0 <= k < |a.children| ==>
          a.children[k].taken == b.children[k].taken && (a.children[k].exited ==> b.children[k].exited))
    && (forall pc <- b.threads :: pc.NotStarted?)
  }

  /** The batches of a group, one per rep and point, from the queue's start. */
  ghost predicate Group(runs: seq<seq<State>>) {
    && (forall b :: 0 <= b < |runs| ==> Steps(runs[b]))
    && (runs != [] ==> runs[0][0].children == [] && Fresh(runs[0][0]))
    && forall b :: 0 < b < |runs| ==> Handover(Final(runs[b - 1]), runs[b][0])
  }

  lemma HandoverFresh(run: seq<State>, next: State)
    requires Run(run) && Handover(Final(run), next)
    ensures Fresh(next)
  {
    var last := Final(run);
    NoChildLeft(run, |run| - 1);
    forall c | c in next.children ensures Over(c) {
      var k :| 0 <= k < |next.children| && next.children[k] == c;
      assert last.children[k] in last.children;
    }
  }

  /** Every batch of a group starts as the first one does. */
  lemma {:induction false} GroupRuns(runs: seq<seq<State>>)
    requires Group(runs)
    ensures forall b :: 0 <= b < |runs| ==> Run(runs[b])
  {
    for b := 0 to |runs|
      invariant forall a :: 0 <= a < b ==> Run(runs[a])
    {
      if b > 0 {
        HandoverFresh(runs[b - 1], runs[b][0]);
      }
    }
  }

  /**
   After any number of batches, whenever the stop or the deadline came, no child ever spawned
   is left: when the group returns, each has exited or was taken.
   */
  lemma NoChildLeftInGroup(runs: seq<seq<State>>)
    requires Group(runs) && runs != [] && AllReturned(Final(runs[|runs| - 1]))
    ensures
      var end := Final(runs[|runs| - 1]);
      end.table == map[] && forall c <- end.children :: Over(c)
  {
    GroupRuns(runs);
    var last := runs[|runs| - 1];
    NoChildLeft(last, |last| - 1);
  }

  // ----- the shutdown ends -----

  function Rank(): Pc -> int {
    (pc: Pc) => match pc
      case Returned => 0
      case Checking => 1
      case NotStarted => 2
      case Waiting => 2
      case Ending(_) => 2
      case Popping(_) => 3
      case Deciding(_) => 3
      case Polling(_) => 4
      case Registering(_) => 5
      case Spawning => 6
  }

  /** Once halted, every action of a thread brings it closer to returning. */
  lemma HaltedStepDecreases(st: State, i: nat, again: bool)
    requires st.halt && Enabled(st, Thread(i, again))
    ensures Sum(Rank(), ThreadStep(st, i, again).threads) < Sum(Rank(), st.threads)
    ensures ThreadStep(st, i, again).halt
  {
    SumUpdate(Rank(), st.threads, i, ThreadStep(st, i, again).threads[i]);
  }

  /** How many thread actions a stretch of a run holds. */
  ghost predicate Schedule(run: seq<State>, moves: seq<Move>) {
    |run| == |moves| + 1 && forall k :: 0 <= k < |moves| ==> Moves(run[k], moves[k], run[k + 1])
  }

  function ThreadMoves(moves: seq<Move>): nat {
    if moves == [] then 0
    else ThreadMoves(moves[..|moves| - 1]) + if moves[|moves| - 1].Thread? then 1 else 0
  }

  /** From the halt on, at most six actions per member are left, and someone can act until all returned. */
  lemma {:induction false} ShutdownEnds(run: seq<State>, moves: seq<Move>)
    requires Schedule(run, moves) && run[0].halt
    ensures run[|moves|].halt && |run[|moves|].threads| == |run[0].threads|
    ensures ThreadMoves(moves) + Sum(Rank(), run[|moves|].threads) <= Sum(Rank(),
        run[0].threads) <= 6 * |run[0].threads|
    decreases |moves|
  {
    SumBounds(Rank(), run[0].threads, 0, 6);
    if moves != [] {
      var n := |moves| - 1;
      ShutdownEnds(run[..n + 1], moves[..n]);
      assert Moves(run[n], moves[n], run[n + 1]);
      match moves[n]
      case Thread(i, again) => HaltedStepDecreases(run[n], i, again);
      case _ =>
    }
  }

  lemma ThreadsNeverStuck(run: seq<State>, k: nat)
    requires Run(run) && k < |run| && !AllReturned(run[k])
    ensures exists m: Move :: m.Thread? && Enabled(run[k], m)
  {
    RunInv(run);
    var pc :| pc in run[k].threads && !pc.Returned?;
    var i :| 0 <= i < |run[k].threads| && run[k].threads[i] == pc;
    assert ThreadOk(|run[0].children|, run[k], i);
    assert Enabled(run[k], Thread(i, false));
  }

  lemma OneMoreMove(run: seq<State>, m: Move)
    requires Run(run) && Enabled(Final(run), m)
    ensures Run(run + [Step(Final(run), m)])
  {
    var run' := run + [Step(Final(run), m)];
    assert Moves(Final(run), m, Step(Final(run), m));
    forall k | 0 < k < |run'| ensures Next(run'[k - 1], run'[k]) {
      if k < |run| {
        assert run'[k - 1] == run[k - 1] && run'[k] == run[k];
      }
    }
  }

  /** From any state after the stop or the deadline the threads can all return. */
  lemma {:induction false} CanReturn(run: seq<State>) returns (run': seq<State>)
    requires Run(run) && Final(run).halt
    ensures Run(run') && run <= run' && AllReturned(Final(run'))
    decreases Sum(Rank(), Final(run).threads)
  {
    SumBounds(Rank(), Final(run).threads, 0, 6);
    if AllReturned(Final(run)) {
      run' := run;
    } else {
      ThreadsNeverStuck(run, |run| - 1);
      var m: Move :| m.Thread? && Enabled(Final(run), m);
      HaltedStepDecreases(Final(run), m.i, m.again);
      OneMoreMove(run, m);
      var next := Step(Final(run), m);
      SumBounds(Rank(), next.threads, 0, 6);
      run' := CanReturn(run + [next]);
    }
  }
}
