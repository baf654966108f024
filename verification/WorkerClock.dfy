/**
 The per-worker start time is written by the barrier's leader, but only on the path of a
 slot that drew a block. A slot that drew none meets the same barrier and writes nothing,
 so a worker whose last arrival is such a slot keeps the start time 0. This module says
 exactly which configurations are safe from that.
 */
module WorkerClock {
  import opened Sums
  import opened BlockPool

  ghost predicate Clocked(st: State) {
    forall wk <- st.workers :: wk.clockStores == 1
  }

  lemma OneWorker(f: Slot -> int, st: State)
    requires |st.workers| == 1
    ensures Tally(f, st) == Sum(f, st.workers[0].slots)
  {
    assert Sum(PerWorker(f), st.workers[1..]) == 0;
  }

  /** One worker with enough blocks for its slots: nobody is idle before the barrier opens. */
  lemma NoIdleBeforeOpening(cfg: Config, st: State, i: nat)
    requires Inv(cfg, st) && cfg.workers == 1 && cfg.BlocksPerWorker() >= cfg.conns
    requires InRange(st, 0, i) && st.workers[0].barrier.gen == 0
    ensures !st.workers[0].slots[i].Past()
  {
    var wk := st.workers[0];
    assert WorkerOk(cfg, wk);
    assert forall s <- wk.slots :: SlotOk(s, wk.barrier);
    SumBounds(Outs(), wk.slots, 0, 0);
    var either := (s: Slot) => One(s.Holding()) + One(s.Past());
    SumAdd(Holds(), Pasts(), either, wk.slots);
    SumBounds(either, wk.slots, 0, 1);
    SumBounds(Holds(), wk.slots, 0, 1);
    if wk.slots[i].Past() {
      SumTerm(Pasts(), wk.slots, i);
    }
    OneWorker(Outs(), st);
    OneWorker(Holds(), st);
    OneWorker(Pasts(), st);
  }

  ghost predicate OpenedClocked(st: State) {
    forall wk <- st.workers :: wk.barrier.gen == 1 ==> wk.clockStores == 1
  }

  lemma ClockStep(cfg: Config, st: State, w: nat, i: nat, r: Outcome)
    requires Inv(cfg, st) && cfg.workers == 1 && cfg.BlocksPerWorker() >= cfg.conns
    requires InRange(st, w, i) && Enabled(st, w, i) && OpenedClocked(st)
    ensures OpenedClocked(Step(cfg, st, w, i, r))
  {
    var wk := st.workers[0];
    assert WorkerOk(cfg, wk) && SlotOk(wk.slots[i], wk.barrier);
    if wk.barrier.gen == 0 {
      NoIdleBeforeOpening(cfg, st, i);
    }
  }

  lemma ClockedWhenEnough(cfg: Config, run: seq<State>)
    requires cfg.Valid() && cfg.workers == 1 && (cfg.blocks == 0 || cfg.blocks >= cfg.conns)
    requires Run(cfg, run) && Stuck(run[|run| - 1])
    ensures Clocked(run[|run| - 1])
  {
    RunInv(cfg, run);
    for k := 1 to |run|
      invariant OpenedClocked(run[k - 1])
    {
      var w: nat, i: nat, r: Outcome :| Moves(cfg, run[k - 1], w, i, r, run[k]);
      ClockStep(cfg, run[k - 1], w, i, r);
    }
    RunsComplete(cfg, run);
  }

  // ----- the runs that lose a clock -----

  function Last(run: seq<State>): State
    requires run != []
  {
    run[|run| - 1]
  }

  lemma LastInv(cfg: Config, run: seq<State>)
    requires cfg.Valid() && Run(cfg, run)
    ensures Inv(cfg, Last(run))
  {
    RunInv(cfg, run);
    assert Last(run) in run;
  }

  lemma Extend(cfg: Config, run: seq<State>, w: nat, i: nat) returns (run': seq<State>)
    requires cfg.Valid() && Run(cfg, run) && InRange(Last(run), w, i) && Enabled(Last(run), w, i)
    ensures Run(cfg, run') && Inv(cfg, Last(run')) && Measure(cfg, Last(run')) < Measure(cfg, Last(run))
    ensures exists r :: Last(run') == Step(cfg, Last(run), w, i, r)
  {
    var r := Outcome(0, 0, true, false);
    LastInv(cfg, run);
    StepInv(cfg, Last(run), w, i, r);
    StepDecreases(cfg, Last(run), w, i, r);
    run' := run + [Step(cfg, Last(run), w, i, r)];
    assert Moves(cfg, Last(run), w, i, r, Last(run'));
    forall k | 0 < k < |run'| ensures Next(cfg, run'[k - 1], run'[k]) {
      if k < |run| {
        assert Next(cfg, run[k - 1], run[k]);
      }
    }
  }

  predicate Untouched(wk: Worker) {
    wk.clockStores == 0 && forall s <- wk.slots :: s == Slot(Drawing, [])
  }

  /** Worker 0 alone can run to its end while all the others have yet to draw. */
  lemma {:induction false} DrainFirst(cfg: Config, run: seq<State>) returns (run': seq<State>)
    requires cfg.Valid() && Run(cfg, run)
    requires forall w :: 1 <= w < |Last(run).workers| ==> Untouched(Last(run).workers[w])
    ensures Run(cfg, run')
    ensures forall w :: 1 <= w < |Last(run').workers| ==> Untouched(Last(run').workers[w])
    ensures |Last(run').workers| == cfg.workers && forall s <- Last(run').workers[0].slots :: s.phase.Finished?
    decreases Measure(cfg, Last(run))
  {
    LastInv(cfg, run);
    var st := Last(run);
    MeasureNat(cfg, st);
    if forall s <- st.workers[0].slots :: s.phase.Finished? {
      run' := run;
    } else {
      var i := WorkerProgress(cfg, st, 0);
      var next := Extend(cfg, run, 0, i);
      MeasureNat(cfg, Last(next));
      run' := DrainFirst(cfg, next);
    }
  }

  /** The pool is empty and worker `w` came away with nothing. */
  predicate Starved(cfg: Config, st: State, w: nat) {
    && w < |st.workers| && st.next >= cfg.Total() && st.workers[w].clockStores == 0
    && forall s <- st.workers[w].slots :: !s.Holding() && s.outs == []
  }

  lemma {:induction false} FinishStarved(cfg: Config, run: seq<State>, v: nat) returns (run': seq<State>)
    requires cfg.Valid() && Run(cfg, run) && Starved(cfg, Last(run), v)
    ensures Run(cfg, run') && Stuck(Last(run')) && Starved(cfg, Last(run'), v)
    decreases Measure(cfg, Last(run))
  {
    LastInv(cfg, run);
    var st := Last(run);
    MeasureNat(cfg, st);
    if Stuck(st) {
      run' := run;
    } else {
      var w: nat, i: nat :| InRange(st, w, i) && Enabled(st, w, i);
      var next := Extend(cfg, run, w, i);
      var r :| Last(next) == Step(cfg, st, w, i, r);
      StarvedStep(cfg, st, v, w, i, r);
      MeasureNat(cfg, Last(next));
      run' := FinishStarved(cfg, next, v);
    }
  }

  lemma StarvedStep(cfg: Config, st: State, v: nat, w: nat, i: nat, r: Outcome)
    requires Starved(cfg, st, v) && InRange(st, w, i) && Enabled(st, w, i)
    ensures Starved(cfg, Step(cfg, st, w, i, r), v)
  {
    assert w == v ==> st.workers[w].slots[i] in st.workers[v].slots;
    var st' := Step(cfg, st, w, i, r);
    forall s <- st'.workers[v].slots ensures !s.Holding() && s.outs == [] {
      assert s in st.workers[v].slots || s == st'.workers[w].slots[i];
    }
  }

  /** Two workers or more: one of them can empty the pool before another draws. */
  lemma ManyWorkersLose(cfg: Config) returns (run: seq<State>)
    requires cfg.Valid() && cfg.workers > 1
    ensures Run(cfg, run) && Stuck(Last(run)) && !Clocked(Last(run))
  {
    var drained := DrainFirst(cfg, [Init(cfg)]);
    LastInv(cfg, drained);
    var st := Last(drained);
    assert Inv(cfg, st) && WorkerOk(cfg, st.workers[0]);
    assert PerWorker(Pasts())(st.workers[0]) >= 1 by {
      SumBounds(Pasts(), st.workers[0].slots, 1, 1);
    }
    forall wk <- st.workers ensures 0 <= PerWorker(Pasts())(wk) {
      SumBounds(Pasts(), wk.slots, 0, 1);
    }
    SumTerm(PerWorker(Pasts()), st.workers, 0);
    assert Untouched(st.workers[1]);
    run := FinishStarved(cfg, drained, 1);
    assert Last(run).workers[1] in Last(run).workers;
  }

  // One worker, more slots than blocks: let every slot that drew a block arrive first.

  predicate Early(s: Slot) { s.phase.Drawing? || s.phase.Arriving? }

  /** Until the barrier opens, idle slots arrive only once no other slot is still to come. */
  predicate IdleLast(st: State) {
    && |st.workers| == 1 && st.workers[0].clockStores == 0
    && (st.workers[0].barrier.gen == 0 && (exists s <- st.workers[0].slots :: Early(s))
        ==> forall s <- st.workers[0].slots :: !s.phase.BlockedIdle?)
  }

  /** With everybody drawn and too few blocks, some slot still owes an idle arrival. */
  lemma SomeoneOwes(cfg: Config, st: State) returns (j: nat)
    requires Inv(cfg, st) && cfg.workers == 1 && cfg.BlocksPerWorker() < cfg.conns
    requires IdleLast(st) && st.workers[0].barrier.gen == 0
    requires forall s <- st.workers[0].slots :: !s.phase.Drawing?
    requires exists s <- st.workers[0].slots :: s.phase.Arriving?
    ensures InRange(st, 0, j) && st.workers[0].slots[j].phase.Owing?
  {
    var wk := st.workers[0];
    assert WorkerOk(cfg, wk);
    var s0 :| s0 in wk.slots && s0.phase.Arriving?;
    assert Early(s0);
    assert forall s <- wk.slots :: SlotOk(s, wk.barrier) && !s.phase.BlockedIdle?;
    SumBounds(Outs(), wk.slots, 0, 0);
    SumBounds(Holds(), wk.slots, 0, 1);
    OneWorker(Outs(), st);
    OneWorker(Holds(), st);
    OneWorker(Pasts(), st);
    j := SumBelow(Holds(), wk.slots, 1);
  }

  lemma ArrivalKeepsIdleLast(cfg: Config, st: State, i: nat, r: Outcome)
    requires Inv(cfg, st) && cfg.workers == 1 && cfg.BlocksPerWorker() < cfg.conns && IdleLast(st)
    requires InRange(st, 0, i) && Enabled(st, 0, i)
    requires st.workers[0].barrier.gen == 0 && st.workers[0].slots[i].phase.Arriving?
    requires forall s <- st.workers[0].slots :: !s.phase.Drawing?
    ensures IdleLast(Step(cfg, st, 0, i, r))
  {
    var wk := st.workers[0];
    assert WorkerOk(cfg, wk) && Early(wk.slots[i]);
    var j := SomeoneOwes(cfg, st);
    StepInv(cfg, st, 0, i, r);
    var wk' := Step(cfg, st, 0, i, r).workers[0];
    assert WorkerOk(cfg, wk') && SlotOk(wk'.slots[j], wk'.barrier) && SlotOk(wk.slots[j], wk.barrier);
  }

  lemma RestKeepsIdleLast(cfg: Config, st: State, i: nat, r: Outcome)
    requires Inv(cfg, st) && cfg.workers == 1 && IdleLast(st) && InRange(st, 0, i) && Enabled(st, 0, i)
    requires st.workers[0].barrier.gen != 0
          || forall s <- st.workers[0].slots :: !s.phase.Drawing? && !s.phase.Arriving?
    ensures IdleLast(Step(cfg, st, 0, i, r))
  {
    var wk := st.workers[0];
    assert WorkerOk(cfg, wk) && SlotOk(wk.slots[i], wk.barrier);
    var wk' := Step(cfg, st, 0, i, r).workers[0];
    forall s <- wk'.slots | wk.barrier.gen == 0 ensures !Early(s) {
      assert s in wk.slots || s == wk'.slots[i];
    }
  }

  /** The scheduler of the losing run: draws first, then arrivals with a block, then the rest. */
  lemma PickIdleLast(cfg: Config, st: State) returns (i: nat)
    requires Inv(cfg, st) && cfg.workers == 1 && cfg.BlocksPerWorker() < cfg.conns
    requires IdleLast(st) && !AllFinished(st)
    ensures InRange(st, 0, i) && Enabled(st, 0, i)
    ensures forall r :: IdleLast(Step(cfg, st, 0, i, r))
  {
    var wk := st.workers[0];
    assert WorkerOk(cfg, wk);
    assert st.workers == [wk];
    if wk.barrier.gen == 0 && exists i: nat :: i < |wk.slots| && wk.slots[i].phase.Drawing? {
      i :| i < |wk.slots| && wk.slots[i].phase.Drawing?;
      assert SlotOk(wk.slots[i], wk.barrier) && Early(wk.slots[i]);
    } else if wk.barrier.gen == 0 && exists i: nat :: i < |wk.slots| && wk.slots[i].phase.Arriving? {
      i :| i < |wk.slots| && wk.slots[i].phase.Arriving?;
      forall r ensures IdleLast(Step(cfg, st, 0, i, r)) {
        ArrivalKeepsIdleLast(cfg, st, i, r);
      }
    } else {
      i := WorkerProgress(cfg, st, 0);
      forall r ensures IdleLast(Step(cfg, st, 0, i, r)) {
        RestKeepsIdleLast(cfg, st, i, r);
      }
    }
  }

  lemma {:induction false} FinishIdleLast(cfg: Config, run: seq<State>) returns (run': seq<State>)
    requires cfg.Valid() && cfg.workers == 1 && cfg.BlocksPerWorker() < cfg.conns
    requires Run(cfg, run) && IdleLast(Last(run))
    ensures Run(cfg, run') && Stuck(Last(run')) && IdleLast(Last(run'))
    decreases Measure(cfg, Last(run))
  {
    LastInv(cfg, run);
    var st := Last(run);
    MeasureNat(cfg, st);
    NoDeadlock(cfg, st);
    if AllFinished(st) {
      run' := run;
    } else {
      var i := PickIdleLast(cfg, st);
      var next := Extend(cfg, run, 0, i);
      MeasureNat(cfg, Last(next));
      run' := FinishIdleLast(cfg, next);
    }
  }

  ghost predicate AlwaysClocked(cfg: Config) {
    forall run :: Run(cfg, run) && Stuck(Last(run)) ==> Clocked(Last(run))
  }

  /**
   Every finished run has written every worker's start time exactly once if and only if
   there is one worker and it has at least one block per connection.
   */
  lemma ClockCondition(cfg: Config)
    requires cfg.Valid()
    ensures AlwaysClocked(cfg) <==> cfg.workers == 1 && (cfg.blocks == 0 || cfg.blocks >= cfg.conns)
  {
    if cfg.workers > 1 {
      var run := ManyWorkersLose(cfg);
      assert !AlwaysClocked(cfg);
    } else if cfg.BlocksPerWorker() < cfg.conns {
      var run := FinishIdleLast(cfg, [Init(cfg)]);
      assert Last(run).workers[0] in Last(run).workers;
      assert !AlwaysClocked(cfg);
    } else {
      forall run | Run(cfg, run) && Stuck(Last(run)) ensures Clocked(Last(run)) {
        ClockedWhenEnough(cfg, run);
      }
    }
  }
}
