/**
 The last-receive stamp of the socket shim under concurrent hooks. It is raised by weak
 compare-and-swap loops, which may fail spuriously. A step is one atomic access of one thread.
 */
module SharedStamps {
  datatype Pc = Begin | Looping(cur: nat) | Done

  datatype Thread = Thread(t: nat, pc: Pc)

  datatype State = State(last: nat, threads: seq<Thread>)

  /** A receive hook's next access; `spurious` lets the weak swap fail although it could succeed. */
  function Step(st: State, i: nat, spurious: bool): State
    requires i < |st.threads| && !st.threads[i].pc.Done?
  {
    var th := st.threads[i];
    match th.pc
    case Begin => st.(threads := st.threads[i := th.(pc := Looping(st.last))])
    case Looping(cur) =>
      if th.t <= cur then st.(threads := st.threads[i := th.(pc := Done)])
      else if st.last == cur && !spurious then State(th.t, st.threads[i := th.(pc := Done)])
      else st.(threads := st.threads[i := th.(pc := Looping(st.last))])
  }

  ghost predicate Moves(st: State, i: nat, spurious: bool, st': State) {
    i < |st.threads| && !st.threads[i].pc.Done? && st' == Step(st, i, spurious)
  }

  ghost predicate Next(st: State, st': State) {
    exists i: nat, spurious: bool :: Moves(st, i, spurious, st')
  }

  ghost predicate Run(run: seq<State>) {
    && run != [] && (forall th <- run[0].threads :: th.pc.Begin?)
    && forall k :: 0 < k < |run| ==> Next(run[k - 1], run[k])
  }

  predicate Quiescent(st: State) { forall th <- st.threads :: th.pc.Done? }

  /** `m` is the largest of the initial stamp and all receive times. */
  predicate IsLatest(first: State, m: nat) {
    && first.last <= m && (forall th <- first.threads :: th.t <= m)
    && (m == first.last || exists th <- first.threads :: th.t == m)
  }

  ghost predicate Inv(first: State, st: State) {
    && |st.threads| == |first.threads| && first.last <= st.last
    && (forall i :: 0 <= i < |st.threads| ==>
          && st.threads[i].t == first.threads[i].t
          && (st.threads[i].pc.Done? ==> st.threads[i].t <= st.last)
          && (st.threads[i].pc.Looping? ==> st.threads[i].pc.cur <= st.last))
    && (st.last == first.last || exists th <- first.threads :: th.t == st.last)
  }

  lemma StepInv(first: State, st: State, st': State)
    requires Inv(first, st) && Next(st, st')
    ensures Inv(first, st') && st.last <= st'.last
  {
    var i: nat, spurious: bool :| Moves(st, i, spurious, st');
    assert first.threads[i] in first.threads && first.threads[i].t == st.threads[i].t;
  }

  lemma {:induction false} RunInv(run: seq<State>)
    requires Run(run)
    ensures forall k :: 0 <= k < |run| ==> Inv(run[0], run[k])
    ensures forall j, k :: 0 <= j <= k < |run| ==> run[j].last <= run[k].last
  {
    assert forall i :: 0 <= i < |run[0].threads| ==> run[0].threads[i] in run[0].threads;
    for k := 1 to |run|
      invariant forall j :: 0 <= j < k ==> Inv(run[0], run[j])
      invariant forall i, j :: 0 <= i <= j < k ==> run[i].last <= run[j].last
    {
      StepInv(run[0], run[k - 1], run[k]);
    }
  }

  /**
   In every interleaving the stamp never decreases, and once all hooks are done it is the
   latest receive time.
   */
  lemma LatestAtQuiescence(run: seq<State>, j: nat, k: nat)
    requires Run(run) && j <= k < |run|
    ensures run[j].last <= run[k].last
    ensures Quiescent(run[k]) ==> IsLatest(run[0], run[k].last)
  {
    RunInv(run);
    assert Inv(run[0], run[k]);
    if Quiescent(run[k]) {
      forall th | th in run[0].threads ensures th.t <= run[k].last {
        var i :| 0 <= i < |run[0].threads| && run[0].threads[i] == th;
        assert run[k].threads[i] in run[k].threads;
      }
    }
  }

  /** A failed swap is spurious or another hook has raised the stamp since it was read. */
  lemma FailureMeansProgress(run: seq<State>, k: nat, i: nat)
    requires Run(run) && k < |run| && i < |run[k].threads| && run[k].threads[i].pc.Looping?
    requires run[k].threads[i].t > run[k].threads[i].pc.cur
    ensures Step(run[k], i, false).threads[i].pc.Done? || run[k].threads[i].pc.cur < run[k].last
  {
    RunInv(run);
    assert Inv(run[0], run[k]);
  }
}
