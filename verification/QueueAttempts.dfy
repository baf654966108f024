/** How many children a member's thread spawns, when it returns, and which children a shutdown takes. */
module QueueAttempts {
  import opened QueueShutdown

  /** The children from `base` on that the thread spawned. */
  function Own(base: nat, children: seq<Child>, i: nat): nat {
    if |children| <= base then 0
    else
      var n := |children| - 1;
      Own(base, children[..n], i) + if children[n].owner == i then 1 else 0
  }

  /** How often a child of the thread ended in a way that calls for another attempt. */
  function Refusals(run: seq<State>, moves: seq<Move>, i: nat): nat
    requires |run| == |moves| + 1
  {
    if moves == [] then 0
    else
      var n := |moves| - 1;
      Refusals(run[..n + 1], moves[..n], i) + if RefusedAt(run[n], moves[n], i) then 1 else 0
  }

  predicate RefusedAt(st: State, m: Move, i: nat) {
    m == Thread(i, true) && i < |st.threads| && st.threads[i].Popping?
  }

  /** The thread's latest child is number `k`. */
  predicate Latest(base: nat, st: State, i: nat, k: nat) {
    && base <= k < |st.children| && st.children[k].owner == i
    && forall j :: k < j < |st.children| ==> st.children[j].owner != i
  }

  predicate LatestExited(base: nat, st: State, i: nat) {
    exists k: nat :: k < |st.children| && Latest(base, st, i, k) && st.children[k].exited
  }

  /** Without a stop: a thread has one child more than refusals while it is about one, and when it returned. */
  predicate Balanced(base: nat, st: State, i: nat, refusals: nat) {
    && base <= |st.children| && i < |st.threads|
    && (!st.halt ==>
          match st.threads[i]
          case NotStarted => Own(base, st.children, i) == refusals
          case Checking => Own(base, st.children, i) == refusals
          case Spawning => Own(base, st.children, i) == refusals
          case Waiting => Own(base, st.children, i) == refusals
          case Registering(k) => Own(base, st.children, i) == refusals + 1 && Latest(base, st, i, k)
          case Polling(k) => Own(base, st.children, i) == refusals + 1 && Latest(base, st, i, k)
          case Deciding(k) => Own(base, st.children, i) == refusals + 1 && Latest(base, st, i, k)
          case Popping(k) =>
            Own(base, st.children, i) == refusals + 1 && Latest(base, st, i, k) && st.children[k].exited
          case Ending(_) => false
          case Returned => Own(base, st.children, i) == refusals + 1 && LatestExited(base, st, i))
  }

  lemma OneChildMore(base: nat, children: seq<Child>, c: Child, i: nat)
    requires base <= |children|
    ensures Own(base, children + [c], i) == Own(base, children, i) + if c.owner == i then 1 else 0
  {
    assert (children + [c])[..|children|] == children;
  }

  predicate SameOwners(a: seq<Child>, b: seq<Child>) {
    |a| == |b| && forall k :: 0 <= k < |a| ==> a[k].owner == b[k].owner && (a[k].exited ==> b[k].exited)
  }

  lemma {:induction false} SameOwn(base: nat, a: seq<Child>, b: seq<Child>, i: nat)
    requires SameOwners(a, b)
    ensures Own(base, a, i) == Own(base, b, i)
  {
    if |a| > base {
      SameOwn(base, a[..|a| - 1], b[..|b| - 1], i);
    }
  }

  lemma LatestStays(base: nat, st: State, st': State, i: nat, k: nat)
    requires Latest(base, st, i, k) && SameOwners(st.children, st'.children)
    ensures Latest(base, st', i, k) && (st.children[k].exited ==> st'.children[k].exited)
  {
  }

  /** No exit, and nobody else's action but a spawn, changes a thread's balance. */
  lemma SameBalanced(base: nat, st: State, st': State, i: nat, refusals: nat)
    requires Balanced(base, st, i, refusals) && |st'.threads| == |st.threads| && st'.threads[i] == st.threads[i]
    requires (!st'.halt ==> !st.halt) && SameOwners(st.children, st'.children)
    ensures Balanced(base, st', i, refusals)
  {
    SameOwn(base, st.children, st'.children, i);
    if !st'.halt {
      var pc := st.threads[i];
      if pc.Returned? {
        var k: nat :| k < |st.children| && Latest(base, st, i, k) && st.children[k].exited;
        LatestStays(base, st, st', i, k);
      } else if HasChild(pc) {
        LatestStays(base, st, st', i, pc.k);
      }
    }
  }

  lemma LatestBefore(base: nat, st: State, st': State, i: nat, c: Child, k: nat)
    requires Latest(base, st, i, k) && c.owner != i && st'.children == st.children + [c]
    ensures Latest(base, st', i, k) && st'.children[k] == st.children[k]
  {
  }

  /** Nor does somebody else's spawn. */
  lemma SpawnBalanced(base: nat, st: State, st': State, i: nat, refusals: nat, c: Child)
    requires Balanced(base, st, i, refusals) && |st'.threads| == |st.threads| && st'.threads[i] == st.threads[i]
    requires (!st'.halt ==> !st.halt) && c.owner != i && st'.children == st.children + [c]
    ensures Balanced(base, st', i, refusals)
  {
    OneChildMore(base, st.children, c, i);
    if !st'.halt {
      var pc := st.threads[i];
      if pc.Returned? {
        var k: nat :| k < |st.children| && Latest(base, st, i, k) && st.children[k].exited;
        LatestBefore(base, st, st', i, c, k);
      } else if HasChild(pc) {
        LatestBefore(base, st, st', i, c, pc.k);
      }
    }
  }

  lemma MoverBalanced(base: nat, st: State, i: nat, again: bool, refusals: nat)
    requires Balanced(base, st, i, refusals) && Enabled(st, Thread(i, again)) && (st.threads[i].Ending? ==> st.halt)
    ensures
      Balanced(base, ThreadStep(st, i, again), i, refusals + if RefusedAt(st, Thread(i, again), i) then 1 else 0)
  {
    if st.threads[i].Spawning? {
      OneChildMore(base, st.children, Child(i, false, false, st.halt), i);
    }
    if st.threads[i].Popping? && !st.halt {
      assert Latest(base, st, i, st.threads[i].k);
    }
  }

  lemma OtherMoves(base: nat, st: State, j: nat, again: bool, i: nat, refusals: nat)
    requires Balanced(base, st, i, refusals) && Enabled(st, Thread(j, again)) && j != i
    ensures Balanced(base, ThreadStep(st, j, again), i, refusals)
  {
    var st' := ThreadStep(st, j, again);
    if st.threads[j].Spawning? {
      SpawnBalanced(base, st, st', i, refusals, Child(j, false, false, st.halt));
    } else {
      SameBalanced(base, st, st', i, refusals);
    }
  }

  lemma StepBalanced(base: nat, st: State, m: Move, i: nat, refusals: nat)
    requires Balanced(base, st, i, refusals) && Enabled(st, m)
    requires forall j :: 0 <= j < |st.threads| && st.threads[j].Ending? ==> st.halt
    ensures Balanced(base, Step(st, m), i, refusals + if RefusedAt(st, m, i) then 1 else 0)
  {
    if m.Thread? {
      if m.i == i {
        MoverBalanced(base, st, i, m.again, refusals);
      } else {
        OtherMoves(base, st, m.i, m.again, i, refusals);
      }
    } else {
      SameBalanced(base, st, Step(st, m), i, refusals);
    }
  }

  lemma {:induction false} RunBalanced(run: seq<State>, moves: seq<Move>, i: nat)
    requires Run(run) && Schedule(run, moves) && i < |run[0].threads|
    ensures Balanced(|run[0].children|, run[|moves|], i, Refusals(run, moves, i))
    decreases |moves|
  {
    var base := |run[0].children|;
    if moves == [] {
      assert run[0].threads[i] in run[0].threads;
    } else {
      var n := |moves| - 1;
      RunBalanced(run[..n + 1], moves[..n], i);
      RunInv(run);
      assert Moves(run[n], moves[n], run[n + 1]);
      forall j | 0 <= j < |run[n].threads| && run[n].threads[j].Ending? ensures run[n].halt {
        assert ThreadOk(base, run[n], j);
      }
      StepBalanced(base, run[n], moves[n], i, Refusals(run[..n + 1], moves[..n], i));
    }
  }

  /**
   A thread that returned although neither stop nor deadline came made one attempt and another for
   each that called for it, and its last child had exited by itself.
   */
  lemma AttemptsMade(run: seq<State>, moves: seq<Move>, i: nat)
    requires Run(run) && Schedule(run, moves) && i < |run[0].threads|
    ensures |run[|moves|].threads| == |run[0].threads|
    ensures
      var st, base := run[|moves|], |run[0].children|;
      !st.halt && st.threads[i].Returned? ==>
        Own(base, st.children, i) == Refusals(run, moves, i) + 1 && LatestExited(base, st, i)
  {
    SameThreads(run, moves);
    RunBalanced(run, moves, i);
  }

  lemma {:induction false} SameThreads(run: seq<State>, moves: seq<Move>)
    requires Schedule(run, moves)
    ensures |run[|moves|].threads| == |run[0].threads|
    decreases |moves|
  {
    if moves != [] {
      var n := |moves| - 1;
      SameThreads(run[..n + 1], moves[..n]);
      assert Moves(run[n], moves[n], run[n + 1]);
    }
  }

  // ----- late children and taken ones -----

  /** Child `a` appeared in a step from a state in which the stop or the deadline had come. */
  predicate SpawnedLate(run: seq<State>, a: nat) {
    exists j :: 0 <= j < |run| - 1 && LateAt(run, j, a)
  }

  predicate LateAt(run: seq<State>, j: int, a: nat)
    requires 0 <= j < |run| - 1
  {
    run[j].halt && |run[j].children| <= a < |run[j + 1].children|
  }

  lemma LateStep(st: State, st': State, a: nat)
    requires Next(st, st')
    ensures |st.children| <= |st'.children|
    ensures a < |st.children| ==> st'.children[a].late == st.children[a].late
    ensures |st.children| <= a < |st'.children| && st.halt ==> st'.children[a].late
  {
    var m :| Moves(st, m, st');
  }

  lemma {:induction false} LateStays(run: seq<State>, j: nat, k: nat, a: nat)
    requires Steps(run) && j <= k < |run| && a < |run[j].children|
    ensures a < |run[k].children| && run[k].children[a].late == run[j].children[a].late
    decreases k - j
  {
    if j < k {
      LateStays(run, j, k - 1, a);
      assert Next(run[k - 1], run[k]);
      LateStep(run[k - 1], run[k], a);
    }
  }

  lemma LateIsLate(run: seq<State>, k: nat, j: nat, a: nat)
    requires Steps(run) && j < k < |run| && LateAt(run, j, a)
    ensures a < |run[k].children| && run[k].children[a].late
  {
    assert Next(run[j], run[j + 1]);
    LateStep(run[j], run[j + 1], a);
    LateStays(run, j + 1, k, a);
  }

  lemma LateAtEnd(run: seq<State>, a: nat)
    requires Run(run) && SpawnedLate(run, a)
    ensures |run[0].children| <= a < |Final(run).children| && Final(run).children[a].late
  {
    var i :| 0 <= i < |run| - 1 && LateAt(run, i, a);
    LateIsLate(run, |run| - 1, i, a);
    GrowsOnly(run, i);
  }

  /** Of two children that a batch spawns after the stop or the deadline, each is another thread's. */
  lemma OneLateEach(run: seq<State>, a: nat, b: nat)
    requires Run(run) && a < b && SpawnedLate(run, a) && SpawnedLate(run, b)
    ensures b < |Final(run).children| && Final(run).children[a].owner != Final(run).children[b].owner
  {
    LateAtEnd(run, a);
    LateAtEnd(run, b);
    AtMostOneLate(run, |run| - 1, a, b);
  }

  lemma {:induction false} GrowsOnly(run: seq<State>, i: nat)
    requires Steps(run) && i < |run|
    ensures |run[0].children| <= |run[i].children|
  {
    if i > 0 {
      GrowsOnly(run, i - 1);
      assert Next(run[i - 1], run[i]);
      LateStep(run[i - 1], run[i], 0);
    }
  }

  /** A child is taken only out of the table, after the stop or the deadline; with it everything there. */
  lemma TakenFromTable(run: seq<State>, j: nat, a: nat)
    requires Run(run) && j + 1 < |run| && a < |run[j].children| <= |run[j + 1].children|
    requires !run[j].children[a].taken && run[j + 1].children[a].taken
    ensures run[j].halt && a in run[j].table.Values && run[j + 1].table == map[]
    ensures forall k <- run[j].table.Values :: k < |run[j + 1].children| ==> run[j + 1].children[k].taken
  {
    RunInv(run);
    assert Next(run[j], run[j + 1]);
    var m :| Moves(run[j], m, run[j + 1]);
    assert m.Thread? && run[j].threads[m.i].Ending?;
    assert ThreadOk(|run[0].children|, run[j], m.i);
  }
}
