/** When a sweep that is killed starts more runs than were missing and one for each kill. */
module SweepRepeats {
  import opened Folds
  import opened Worklist
  import opened Sweeps
  import opened SweepKills

  /** At any point of any run, at most the missing runs were started, and one more for each kill. */
  ghost predicate Bounded(job: Job, s: Session) {
    forall run, m :: Run(job, s, run) && m in run ==>
      Begun(s, m) <= |Missing(job.Keys(), DoneSet(s.df, job.Knobs()))| + m.kills
  }

  /**
   Nothing is missing; or every planned run that is done lasts; or an undisturbed sweep executes
   a single run and a single other one does not last.
   */
  ghost predicate NoSurplus(o: Outset) {
    || Missing(o.keys, o.done) == []
    || (forall t <- o.keys :: t in o.done ==> t in o.kept)
    || (|Worked(o.keys, o.done, o.kept)| == 1 && |Missing(o.keys, o.kept)| == 2)
  }

  // ----- what the first run leaves -----

  lemma {:induction false} WorkedFirst(keys: seq<Key>, done: iset<Key>, kept: iset<Key>, i: nat)
    requires i < |keys| && keys[i] !in done && forall j :: 0 <= j < i ==> keys[j] in done
    ensures Worked(keys, done, kept) == [keys[i]] + Missing(keys[i + 1..], kept + iset{keys[i]})
  {
    if i > 0 {
      assert keys[0] in done && keys[1..][i - 1] == keys[i];
      WorkedFirst(keys[1..], done, kept, i - 1);
      assert keys[1..][i..] == keys[i + 1..];
    }
  }

  lemma NoneLeft(keys: seq<Key>, i: nat, done: iset<Key>)
    requires i <= |keys|
    ensures Missing(keys[i..], done) == [] <==> forall j :: i <= j < |keys| ==> keys[j] in done
  {
    if forall j :: i <= j < |keys| ==> keys[j] in done {
      NothingMissing(keys[i..], done);
    }
    if j :| i <= j < |keys| && keys[j] !in done {
      assert keys[i..][j - i] == keys[j];
      MissingMembers(keys[i..], done, keys[j]);
    }
  }

  /** Whether entries behind the first missing one are executed too. */
  lemma OnlyOne(o: Outset, i: nat)
    requires PassedOk(o, i, true, [])
    ensures |Worked(o.keys, o.done, o.kept)| == 1
       <==> forall j :: i + 1 <= j < |o.keys| ==> o.keys[j] in DoneWith(o, [o.keys[i]])
    ensures Worked(o.keys, o.done, o.kept) != []
  {
    WorkedFirst(o.keys, o.done, o.kept, i);
    NoneLeft(o.keys, i + 1, o.kept + iset{o.keys[i]});
    assert Members([o.keys[i]]) == iset{o.keys[i]};
  }

  // ----- within the bound -----

  /** One run was started and recorded, and the process at hand starts none; or a kill came free. */
  ghost predicate Spared(o: Outset, s: Session, m: Machine) {
    || m.recorded == []
    || Begun(s, m) + 1 <= |m.recorded| + m.kills + Flying(m)
    || (&& |m.recorded| == 1 && m.pc.Checking? && Begun(s, m) <= 1 + m.kills
        && forall j :: m.idx <= j < |o.keys| ==> o.keys[j] in DoneWith(o, m.recorded))
  }

  lemma FirstRecord(job: Job, s: Session, m: Machine)
    requires Inv(job, s, m) && StartedOk(job, s, m) && m.idx < |job.plan| && m.pc.InFlight? && m.recorded == []
    requires |Worked(job.Keys(), DoneSet(s.df, job.Knobs()), Lasting(s.df, job.Knobs()))| == 1
    ensures Spared(OutsetOf(job, s), s, Go(job, m))
  {
    var o := OutsetOf(job, s);
    KeysAt(job.call, job.plan, m.idx);
    OnlyOne(o, m.idx);
    assert Go(job, m).recorded == [o.keys[m.idx]];
  }

  lemma StillSpared(job: Job, s: Session, m: Machine)
    requires Inv(job, s, m) && m.idx < |job.plan| && m.recorded != [] && Spared(OutsetOf(job, s), s, m)
    ensures Spared(OutsetOf(job, s), s, Go(job, m))
  {
    KeysAt(job.call, job.plan, m.idx);
    IsDone(job, m.s.df, m.idx);
  }

  lemma SparedStep(job: Job, s: Session, m: Machine, m': Machine)
    requires Inv(job, s, m) && StartedOk(job, s, m) && Next(job, m, m') && Spared(OutsetOf(job, s), s, m)
    requires |Worked(job.Keys(), DoneSet(s.df, job.Knobs()), Lasting(s.df, job.Knobs()))| == 1
    ensures Spared(OutsetOf(job, s), s, m')
  {
    if m' != Kill(m) {
      if m.recorded != [] {
        StillSpared(job, s, m);
      } else if m.pc.InFlight? {
        FirstRecord(job, s, m);
      }
    }
  }

  lemma RunSpared(job: Job, s: Session, run: seq<Machine>)
    requires Run(job, s, run) && s.df.Valid() && Faithful(job.bench, job.call.axis)
    requires |Worked(job.Keys(), DoneSet(s.df, job.Knobs()), Lasting(s.df, job.Knobs()))| == 1
    ensures forall m <- run :: Spared(OutsetOf(job, s), s, m)
  {
    RunInv(job, s, run);
    EachOnItsImage(job, s, run);
    for k := 1 to |run|
      invariant forall j :: 0 <= j < k ==> Spared(OutsetOf(job, s), s, run[j])
    {
      assert run[k - 1] in run;
      SparedStep(job, s, run[k - 1], run[k]);
    }
  }

  lemma SomeMissing(o: Outset, t: Key)
    requires t in o.keys && t !in o.done
    ensures Missing(o.keys, o.done) != []
  {
    MissingMembers(o.keys, o.done, t);
  }

  lemma NothingBegun(job: Job, s: Session, m: Machine)
    requires Inv(job, s, m) && StartedOk(job, s, m) && Missing(job.Keys(), DoneSet(s.df, job.Knobs())) == []
    ensures Begun(s, m) <= m.kills
  {
    var o := OutsetOf(job, s);
    if m.recorded != [] {
      assert m.recorded[0] in m.recorded;
      SomeMissing(o, m.recorded[0]);
      assert false;
    } else if m.pc.InFlight? {
      SomeMissing(o, o.keys[m.idx]);
      assert false;
    }
  }

  lemma OneRepeat(job: Job, s: Session, run: seq<Machine>, m: Machine)
    requires Run(job, s, run) && m in run && s.df.Valid() && Faithful(job.bench, job.call.axis)
    requires |Worked(job.Keys(), DoneSet(s.df, job.Knobs()), Lasting(s.df, job.Knobs()))| == 1
    requires |Missing(job.Keys(), Lasting(s.df, job.Knobs()))| == 2
    ensures Begun(s, m) <= 1 + m.kills
  {
    RunSpared(job, s, run);
    EachOnItsImage(job, s, run);
    StartedRuns(job, s, run, m);
  }

  lemma WithinBound(job: Job, s: Session)
    requires s.df.Valid() && Faithful(job.bench, job.call.axis) && NoSurplus(OutsetOf(job, s))
    ensures Bounded(job, s)
  {
    var o := OutsetOf(job, s);
    forall run, m | Run(job, s, run) && m in run ensures Begun(s, m) <= |Missing(o.keys, o.done)| + m.kills {
      RunInv(job, s, run);
      EachOnItsImage(job, s, run);
      if Missing(o.keys, o.done) == [] {
        NothingBegun(job, s, m);
      } else if forall t <- o.keys :: t in o.done ==> t in o.kept {
        MissingAgree(o.keys, o.done, o.kept);
        StartedRuns(job, s, run, m);
      } else {
        OneRepeat(job, s, run, m);
      }
    }
  }

  // ----- beyond the bound -----

  function Last(run: seq<Machine>): Machine
    requires run != []
  {
    run[|run| - 1]
  }

  /** A run goes on for some undisturbed steps. */
  lemma {:induction false} Extend(job: Job, s: Session, run: seq<Machine>, n: nat) returns (run': seq<Machine>)
    requires Run(job, s, run)
    ensures Run(job, s, run') && Last(run') == Steps(job, Last(run), n)
    decreases n
  {
    if n == 0 {
      run' := run;
    } else if Last(run).idx < |job.plan| {
      run' := Extend(job, s, run + [Go(job, Last(run))], n - 1);
    } else {
      run' := Extend(job, s, run, n - 1);
    }
  }

  lemma KillIt(job: Job, s: Session, run: seq<Machine>) returns (run': seq<Machine>)
    requires Run(job, s, run)
    ensures Run(job, s, run') && Last(run') == Kill(Last(run))
  {
    run' := run + [Kill(Last(run))];
  }

  /** `m'` has started a run more than `m` and is about to record it. */
  predicate OneMoreBegun(m: Machine, m': Machine) {
    && m'.pc.InFlight? && m'.s.df == m.s.df && |m'.s.ran| == |m.s.ran| + 1
    && m'.recorded == m.recorded && m'.kills == m.kills
  }

  lemma StartEntry(job: Job, m: Machine) returns (n: nat)
    requires m.idx < |job.plan| && (m.pc.Prepared? || m.pc.MustBuild?)
    ensures var m' := Steps(job, m, n); OneMoreBegun(m, m') && m'.idx == m.idx
    decreases m.pc.MustBuild?
  {
    if m.pc.Prepared? {
      n := 1;
      assert Iterate(Goer(job), Go(job, m), 0) == Go(job, m);
    } else {
      var k := StartEntry(job, Go(job, Go(job, m)));
      Two(job, m);
      IterateMore(Goer(job), m, 2, k);
      n := 2 + k;
    }
  }

  /** A process with an entry ahead that is not done comes to start one. */
  lemma {:induction false} NextStart(job: Job, m: Machine, i: nat) returns (n: nat)
    requires m.pc.Checking? && m.idx <= i < |job.plan| && job.KeyAt(i) !in DoneSet(m.s.df, job.Knobs())
    ensures var m' := Steps(job, m, n); OneMoreBegun(m, m') && m'.idx < |job.plan|
    decreases i - m.idx
  {
    var next := Go(job, m);
    assert Iterate(Goer(job), next, 0) == next && Steps(job, m, 1) == next;
    IsDone(job, m.s.df, m.idx);
    var k: nat;
    if next.pc.Checking? {
      k := NextStart(job, next, i);
    } else {
      k := StartEntry(job, next);
    }
    IterateMore(Goer(job), m, 1, k);
    n := 1 + k;
  }

  lemma {:induction false} StepsKeepKills(job: Job, m: Machine, n: nat)
    ensures Steps(job, m, n).kills == m.kills
    decreases n
  {
    if n > 0 {
      StepsKeepKills(job, Goer(job)(m), n - 1);
    }
  }

  /** A process that starts on a written CSV and is not killed starts all that is not done. */
  lemma Finish(job: Job, m: Machine) returns (n: nat)
    requires m.pc.Checking? && m.idx == 0 && Ready(m.s.df, job.Knobs()) && Faithful(job.bench, job.call.axis)
    ensures
      var m' := Steps(job, m, n);
      |m'.s.ran| == |m.s.ran| + |Missing(job.Keys(), DoneSet(m.s.df, job.Knobs()))| && m'.kills == m.kills
  {
    n := UndisturbedIsSweep(job, m);
    assert job.plan[0..] == job.plan;
    SweepWorksOff(m.s, job.call, job.plan, job.bench);
    RanKeysSize(m.s.ran);
    RanKeysSize(Steps(job, m, n).s.ran);
    StepsKeepKills(job, m, n);
  }

  /** The first run of a sweep comes in flight. */
  lemma BeginFirst(job: Job, s: Session, i: nat) returns (run: seq<Machine>)
    requires i < |job.plan| && job.KeyAt(i) !in DoneSet(s.df, job.Knobs())
    ensures Run(job, s, run)
    ensures
      var m := Last(run);
      m.pc.InFlight? && m.idx < |job.plan| && m.kills == 0 && Begun(s, m) == 1 && m.recorded == []
  {
    var n := NextStart(job, Init(s), i);
    run := Extend(job, s, [Init(s)], n);
  }

  /** It is recorded; entries are left to execute unless the sweep executes a single one. */
  lemma RecordFirst(job: Job, s: Session, run: seq<Machine>, m: Machine, m': Machine)
    requires Run(job, s, run) && s.df.Valid() && Faithful(job.bench, job.call.axis)
    requires m == Last(run) && m.pc.InFlight? && m.idx < |job.plan| && m.recorded == [] && m' == Go(job, m)
    ensures Run(job, s, run + [m'])
    ensures m'.kills == m.kills && Begun(s, m') == Begun(s, m) && |m'.recorded| == 1 && m'.pc.Checking?
    ensures
      var o := OutsetOf(job, s);
      (forall j :: m'.idx <= j < |o.keys| ==> o.keys[j] in DoneWith(o, m'.recorded))
      <==> |Worked(o.keys, o.done, o.kept)| == 1
  {
    RunInv(job, s, run);
    assert m in run && Inv(job, s, m);
    KeysAt(job.call, job.plan, m.idx);
    OnlyOne(OutsetOf(job, s), m.idx);
    assert m'.recorded == [job.Keys()[m.idx]];
  }

  /** With the first run recorded, or a second one in flight, the process is killed and comes back. */
  lemma KilledAndFinished(job: Job, s: Session, run: seq<Machine>) returns (run': seq<Machine>)
    requires Run(job, s, run) && s.df.Valid() && Faithful(job.bench, job.call.axis)
    requires Last(run).kills == 0 && |Last(run).recorded| == 1
    ensures
      var o := OutsetOf(job, s);
      && Run(job, s, run') && Last(run').kills == 1
      && Begun(s, Last(run')) == Begun(s, Last(run)) + |Missing(o.keys, o.kept)| - 1
  {
    var o, m := OutsetOf(job, s), Last(run);
    RunInv(job, s, run);
    assert m in run && Inv(job, s, m);
    var killed := KillIt(job, s, run);
    var n := Finish(job, Kill(m));
    run' := Extend(job, s, killed, n);
    var key := m.recorded[0];
    assert key in m.recorded && Members(m.recorded) == iset{key};
    MissingLess(o.keys, o.kept, key);
  }

  lemma Lost(o: Outset, t: Key)
    requires t in o.keys && t in o.done && t !in o.kept && o.kept <= o.done
    ensures |Missing(o.keys, o.kept)| >= |Missing(o.keys, o.done)| + 1
  {
    var some := Missing(o.keys, o.done);
    MissingDistinct(o.keys, o.done);
    forall u <- some + [t] ensures u in o.keys && u !in o.kept {
      MissingMembers(o.keys, o.done, u);
    }
    MissingMembers(o.keys, o.done, t);
    assert Distinct(some + [t]);
    DistinctFit(o.keys, o.kept, some + [t]);
  }

  /** Where one run is executed, one was missing. */
  lemma OneMissing(o: Outset, i: nat)
    requires PassedOk(o, i, true, []) && o.kept <= o.done && |Worked(o.keys, o.done, o.kept)| == 1
    ensures |Missing(o.keys, o.done)| == 1
  {
    OnlyOne(o, i);
    SkipDone(o.keys, o.done, i);
    assert o.keys[i..][1..] == o.keys[i + 1..];
    assert forall j :: i + 1 <= j < |o.keys| ==> o.keys[j] in o.done + iset{o.keys[i]};
    NoneLeft(o.keys, i + 1, o.done + iset{o.keys[i]});
  }

  lemma FirstNotDone(o: Outset, i: nat) returns (j: nat)
    requires i < |o.keys| && o.keys[i] !in o.done
    ensures PassedOk(o, j, true, [])
  {
    j := 0;
    while o.keys[j] in o.done
      invariant j <= i && forall k :: 0 <= k < j ==> o.keys[k] in o.done
      decreases i - j
    {
      j := j + 1;
    }
  }

  lemma SurplusCounts(o: Outset, i: nat)
    requires i < |o.keys| && o.keys[i] !in o.done && o.kept <= o.done && !NoSurplus(o)
    ensures
      var first := if |Worked(o.keys, o.done, o.kept)| == 1 then 1 else 2;
      first + |Missing(o.keys, o.kept)| - 1 > |Missing(o.keys, o.done)| + 1
  {
    var t :| t in o.keys && t in o.done && t !in o.kept;
    Lost(o, t);
    if |Worked(o.keys, o.done, o.kept)| == 1 {
      var j := FirstNotDone(o, i);
      OneMissing(o, j);
    }
  }

  lemma SomeEntry(job: Job, s: Session) returns (i: nat)
    requires Missing(job.Keys(), DoneSet(s.df, job.Knobs())) != []
    ensures i < |job.plan| == |job.Keys()|
    ensures job.Keys()[i] == job.KeyAt(i) && job.KeyAt(i) !in DoneSet(s.df, job.Knobs())
  {
    var keys, done := job.Keys(), DoneSet(s.df, job.Knobs());
    var first := Missing(keys, done)[0];
    MissingMembers(keys, done, first);
    i :| i < |keys| && keys[i] == first;
    KeysSize(job.call, job.plan);
    KeysAt(job.call, job.plan, i);
  }

  /** Killed once, behind the first run or with a second one in flight. */
  lemma KilledOnce(job: Job, s: Session, i: nat) returns (run: seq<Machine>)
    requires s.df.Valid() && Faithful(job.bench, job.call.axis)
    requires i < |job.plan| && job.KeyAt(i) !in DoneSet(s.df, job.Knobs())
    ensures Run(job, s, run) && Last(run).kills == 1
    ensures
      var o := OutsetOf(job, s);
      Begun(s, Last(run)) == (if |Worked(o.keys, o.done, o.kept)| == 1 then 1 else 2) + |Missing(o.keys, o.kept)| - 1
  {
    run := BeginFirst(job, s, i);
    var m' := Go(job, Last(run));
    RecordFirst(job, s, run, Last(run), m');
    run := run + [m'];
    if |Worked(job.Keys(), DoneSet(s.df, job.Knobs()), Lasting(s.df, job.Knobs()))| != 1 {
      run := BeginSecond(job, s, run);
    }
    run := KilledAndFinished(job, s, run);
  }

  lemma BeyondBound(job: Job, s: Session)
    requires s.df.Valid() && Faithful(job.bench, job.call.axis) && !NoSurplus(OutsetOf(job, s))
    ensures !Bounded(job, s)
  {
    var i := SomeEntry(job, s);
    SurplusCounts(OutsetOf(job, s), i);
    var run := KilledOnce(job, s, i);
    assert Last(run) in run;
  }

  lemma BeginSecond(job: Job, s: Session, run: seq<Machine>) returns (run': seq<Machine>)
    requires Run(job, s, run) && s.df.Valid() && Faithful(job.bench, job.call.axis)
    requires Last(run).kills == 0 && |Last(run).recorded| == 1 && Last(run).pc.Checking?
    requires
      var o, m := OutsetOf(job, s), Last(run);
      exists j :: m.idx <= j < |o.keys| && o.keys[j] !in DoneWith(o, m.recorded)
    ensures Run(job, s, run') && Last(run').kills == 0 && |Last(run').recorded| == 1
    ensures Begun(s, Last(run')) == Begun(s, Last(run)) + 1
  {
    var o, m := OutsetOf(job, s), Last(run);
    RunInv(job, s, run);
    assert m in run && Inv(job, s, m);
    KeysSize(job.call, job.plan);
    var j :| m.idx <= j < |o.keys| && o.keys[j] !in DoneWith(o, m.recorded);
    KeysAt(job.call, job.plan, j);
    var n := NextStart(job, m, j);
    run' := Extend(job, s, run, n);
  }

  /**
   On any CSV, a sweep with kills anywhere starts at most the missing runs, and one more for each
   kill, if and only if nothing is missing, every planned run that is done lasts, or a single
   run is executed and a single other one does not last.
   */
  lemma StartedIff(job: Job, s: Session)
    requires s.df.Valid() && Faithful(job.bench, job.call.axis)
    ensures Bounded(job, s) <==> NoSurplus(OutsetOf(job, s))
  {
    if NoSurplus(OutsetOf(job, s)) {
      WithinBound(job, s);
    } else {
      BeyondBound(job, s);
    }
  }
}
