/**
 A sweep step by step, with the process killed at any of them and started again: what the CSV
 and the build tree keep, and what the process forgets.
 */
module SweepKills {
  import opened Folds
  import opened Options
  import opened Worklist
  import opened Sweeps

  /** Where the driver is in the plan entry at hand. */
  datatype Pc = Checking | MustBuild | Building | Prepared | InFlight

  /**
   `s` holds the CSV, the tree and the runs started, which survive a kill, and the image the
   process remembers having built, which does not; `recorded` are the runs in the CSV since
   the sweep began.
   */
  datatype Machine = Machine(s: Session, idx: nat, pc: Pc, recorded: seq<Key>, kills: nat)

  datatype Job = Job(call: Call, plan: seq<(string, nat)>, bench: Bench) {
    function Knobs(): set<string> { call.KeyAt("", 0).off.Keys }

    function Keys(): seq<Key> { KeysOf(call, plan) }

    function KeyAt(i: nat): Key
      requires i < |plan|
    {
      call.KeyAt(plan[i].0, plan[i].1)
    }

    function CfgAt(i: nat): Cfg
      requires i < |plan|
    {
      call.CfgAt(plan[i].0)
    }
  }

  /** The driver's next action on its plan entry. */
  function Go(job: Job, m: Machine): Machine
    requires m.idx < |job.plan|
  {
    var key, cfg, s := job.KeyAt(m.idx), job.CfgAt(m.idx), m.s;
    match m.pc
    case Checking =>
      if s.df.rows != [] && Done(s.df, key) then m.(idx := m.idx + 1)
      else m.(pc := if s.built == Some(cfg) then Prepared else MustBuild)
    case MustBuild => m.(s := s.(tree := Half, builds := s.builds + [cfg]), pc := Building)
    case Building => m.(s := s.(tree := Whole(cfg), built := Some(cfg)), pc := Prepared)
    case Prepared =>
      m.(s := s.(ran := s.ran + [Executed(key, cfg, s.tree, job.call.InstanceAt(job.plan[m.idx].0))]), pc := InFlight)
    case InFlight =>
      m.(s := s.(df := Append(s.df, key, cfg, job.bench(if s.ran == [] then 0 else |s.ran| - 1, cfg))),
         idx := m.idx + 1, pc := Checking, recorded := m.recorded + [key])
  }

  /** A new process: it starts over, and knows nothing of what was built. */
  function Kill(m: Machine): Machine {
    m.(s := m.s.(built := None), idx := 0, pc := Checking, kills := m.kills + 1)
  }

  ghost predicate Next(job: Job, m: Machine, m': Machine) {
    m' == Kill(m) || (m.idx < |job.plan| && m' == Go(job, m))
  }

  function Init(s: Session): Machine { Machine(s.(built := None), 0, Checking, [], 0) }

  ghost predicate Run(job: Job, s: Session, run: seq<Machine>) {
    && run != [] && run[0] == Init(s)
    && forall k :: 0 < k < |run| ==> Next(job, run[k - 1], run[k])
  }

  // ----- without a kill it is the sweep -----

  function Goer(job: Job): Machine -> Machine {
    (m: Machine) => if m.idx < |job.plan| then Go(job, m) else m
  }

  function Steps(job: Job, m: Machine, n: nat): Machine { Iterate(Goer(job), m, n) }

  lemma Two(job: Job, m: Machine)
    requires m.idx < |job.plan| && Go(job, m).idx < |job.plan|
    ensures Steps(job, m, 2) == Go(job, Go(job, m))
  {
    assert Iterate(Goer(job), Go(job, m), 1) == Iterate(Goer(job), Go(job, Go(job, m)), 0);
  }

  /** From a checked entry on: build if need be, start, record. */
  lemma RunEntry(job: Job, m: Machine) returns (n: nat)
    requires m.idx < |job.plan| && (m.pc.Prepared? || m.pc.MustBuild?)
    ensures
      var cfg := job.CfgAt(m.idx);
      var tree := if m.pc.Prepared? then m.s.tree else Whole(cfg);
      var built := if m.pc.Prepared? then m.s.built else Some(cfg);
      var builds := if m.pc.Prepared? then m.s.builds else m.s.builds + [cfg];
      var e := Executed(job.KeyAt(m.idx), cfg, tree, job.call.InstanceAt(job.plan[m.idx].0));
      Steps(job, m, n) == Machine(
        Session(Append(m.s.df, job.KeyAt(m.idx), cfg, job.bench(|m.s.ran|, cfg)), tree, built, m.s.ran + [e], builds),
        m.idx + 1, Checking, m.recorded + [job.KeyAt(m.idx)], m.kills)
    decreases m.pc.MustBuild?
  {
    if m.pc.Prepared? {
      n := 2;
      Two(job, m);
    } else {
      var prepared := Go(job, Go(job, m));
      var k := RunEntry(job, prepared);
      Two(job, m);
      IterateMore(Goer(job), m, 2, k);
      n := 2 + k;
    }
  }

  /** One plan entry, undisturbed, is one visit. */
  lemma EntryIsVisit(job: Job, m: Machine) returns (n: nat)
    requires m.idx < |job.plan| && m.pc.Checking?
    ensures
      var m' := Steps(job, m, n);
      m'.s == Visit(m.s, job.call, job.plan[m.idx], job.bench) && m'.idx == m.idx + 1 && m'.pc.Checking?
  {
    var next := Go(job, m);
    if next.pc.Checking? {
      n := 1;
      assert Steps(job, next, 0) == next;
    } else {
      var k := RunEntry(job, next);
      IterateMore(Goer(job), m, 1, k);
      assert Steps(job, next, 0) == next;
      n := 1 + k;
    }
  }

  lemma {:induction false} UndisturbedIsSweep(job: Job, m: Machine) returns (n: nat)
    requires m.idx <= |job.plan| && m.pc.Checking?
    ensures
      var m' := Steps(job, m, n);
      m'.s == Swept(m.s, job.call, job.plan[m.idx..], job.bench) && m'.idx == |job.plan|
    decreases |job.plan| - m.idx
  {
    if m.idx == |job.plan| {
      n := 0;
    } else {
      var a := EntryIsVisit(job, m);
      var b := UndisturbedIsSweep(job, Steps(job, m, a));
      IterateMore(Goer(job), m, a, b);
      assert job.plan[m.idx..][1..] == job.plan[m.idx + 1..];
      n := a + b;
    }
  }

  // ----- the image under a run -----

  /** What the process believes about the tree is so, except while it builds. */
  predicate TreeOk(job: Job, m: Machine) {
    && (!m.pc.Building? && m.s.built.Some? ==> m.s.tree == Whole(m.s.built.value))
    && (m.pc.Prepared? ==> m.idx < |job.plan| && m.s.built == Some(job.CfgAt(m.idx)))
  }

  function Flying(m: Machine): nat { if m.pc.InFlight? then 1 else 0 }

  /** The runs started since the sweep began. */
  function Begun(s: Session, m: Machine): int { |m.s.ran| - |s.ran| }

  /** Every run started since used the tree of its own knobs; each beyond the recorded ones cost a kill. */
  predicate StartedOk(job: Job, s: Session, m: Machine) {
    && s.ran <= m.s.ran
    && (forall e <- m.s.ran[|s.ran|..] :: OnItsImage(job.call, e))
    && Begun(s, m) <= |m.recorded| + m.kills + Flying(m)
  }

  lemma GoTree(job: Job, m: Machine)
    requires TreeOk(job, m) && m.idx < |job.plan|
    ensures TreeOk(job, Go(job, m))
  {
  }

  lemma GoStarted(job: Job, s: Session, m: Machine)
    requires StartedOk(job, s, m) && TreeOk(job, m) && m.idx < |job.plan|
    ensures StartedOk(job, s, Go(job, m))
  {
    var m' := Go(job, m);
    if m.pc.Prepared? {
      var e := m'.s.ran[|m.s.ran|];
      assert OnItsImage(job.call, e);
      assert m'.s.ran[|s.ran|..] == m.s.ran[|s.ran|..] + [e];
    }
  }

  /**
   At any point of any run, whatever the CSV, the bench and the kills: every run started read a
   tree built for exactly its knobs, and each that is not recorded cost a kill.
   */
  lemma EachOnItsImage(job: Job, s: Session, run: seq<Machine>)
    requires Run(job, s, run)
    ensures forall m <- run :: TreeOk(job, m) && StartedOk(job, s, m)
  {
    assert s.ran[|s.ran|..] == [];
    for k := 1 to |run|
      invariant forall j :: 0 <= j < k ==> TreeOk(job, run[j]) && StartedOk(job, s, run[j])
    {
      var m := run[k - 1];
      if run[k] != Kill(m) {
        GoTree(job, m);
        GoStarted(job, s, m);
      }
    }
  }

  // ----- what is recorded -----

  lemma {:induction false} KeysAt(call: Call, plan: seq<(string, nat)>, i: nat)
    requires i < |plan|
    ensures |KeysOf(call, plan)| == |plan| && KeysOf(call, plan)[i] == call.KeyAt(plan[i].0, plan[i].1)
  {
    KeysSize(call, plan);
    if i > 0 {
      KeysAt(call, plan[1..], i - 1);
    }
  }

  lemma {:induction false} KeysSize(call: Call, plan: seq<(string, nat)>)
    ensures |KeysOf(call, plan)| == |plan|
  {
    if plan != [] {
      KeysSize(call, plan[1..]);
    }
  }

  /** The runs a sweep sets out with: its plan, what is done, and what of that lasts. */
  datatype Outset = Outset(keys: seq<Key>, done: iset<Key>, kept: iset<Key>)

  ghost function OutsetOf(job: Job, s: Session): Outset {
    Outset(job.Keys(), DoneSet(s.df, job.Knobs()), Lasting(s.df, job.Knobs()))
  }

  /** What is done once these runs are recorded. */
  ghost function DoneWith(o: Outset, recorded: seq<Key>): iset<Key> {
    if recorded == [] then o.done else o.kept + Members(recorded)
  }

  /** The recorded runs: planned ones, none twice, the first of them missing, none that lasts. */
  ghost predicate RecordedOk(o: Outset, recorded: seq<Key>) {
    && Distinct(recorded) && (forall t <- recorded :: t in o.keys && t !in o.kept)
    && (recorded != [] ==> recorded[0] !in o.done)
  }

  /** The entries passed were done when they were; none was passed before a first run that was not. */
  ghost predicate PassedOk(o: Outset, idx: nat, pending: bool, recorded: seq<Key>) {
    && idx <= |o.keys|
    && (forall i :: 0 <= i < idx ==> o.keys[i] in o.done || o.keys[i] in DoneWith(o, recorded))
    && (pending ==> idx < |o.keys| && o.keys[idx] !in DoneWith(o, recorded))
  }

  ghost predicate CsvOk(o: Outset, df: Csv, knobs: set<string>, recorded: seq<Key>) {
    && df.Valid() && DoneSet(df, knobs) == DoneWith(o, recorded)
    && (if recorded == [] then Lasting(df, knobs) == o.kept else Ready(df, knobs))
  }

  ghost predicate ProgressOf(job: Job, o: Outset, df: Csv, idx: nat, pending: bool, recorded: seq<Key>) {
    && o.keys == job.Keys() && o.kept <= o.done
    && CsvOk(o, df, job.Knobs(), recorded) && RecordedOk(o, recorded) && PassedOk(o, idx, pending, recorded)
  }

  ghost predicate Inv(job: Job, s: Session, m: Machine) {
    ProgressOf(job, OutsetOf(job, s), m.s.df, m.idx, !m.pc.Checking?, m.recorded)
  }

  lemma RecordedMore(o: Outset, idx: nat, recorded: seq<Key>)
    requires RecordedOk(o, recorded) && PassedOk(o, idx, true, recorded) && o.kept <= o.done
    ensures RecordedOk(o, recorded + [o.keys[idx]]) && PassedOk(o, idx + 1, false, recorded + [o.keys[idx]])
    ensures DoneWith(o, recorded + [o.keys[idx]])
         == (if recorded == [] then o.kept else DoneWith(o, recorded)) + iset{o.keys[idx]}
  {
    var key := o.keys[idx];
    var more := recorded + [key];
    assert key !in recorded;
    assert forall t :: t in more <==> t in recorded || t == key;
    assert key !in o.kept;
    forall i | 0 <= i < idx + 1 ensures o.keys[i] in o.done || o.keys[i] in DoneWith(o, more) {
      if i < idx && recorded != [] {
        assert o.keys[i] in o.done || o.keys[i] in DoneWith(o, recorded);
      }
    }
  }

  lemma FaithfulRows(job: Job, i: nat, n: nat)
    requires i < |job.plan| && Faithful(job.bench, job.call.axis)
    ensures Extends(job.CfgAt(i), job.call.axis, job.KeyAt(i).off)
    ensures KeepsQuery(job.bench(n, job.CfgAt(i)), job.KeyAt(i).off)
  {
    assert job.CfgAt(i) - {job.call.axis} == job.KeyAt(i).off;
  }

  lemma AppendCsv(o: Outset, df: Csv, job: Job, i: nat, n: nat, df': Csv, recorded: seq<Key>, recorded': seq<Key>)
    requires i < |job.plan| && Faithful(job.bench, job.call.axis) && CsvOk(o, df, job.Knobs(), recorded)
    requires df' == Append(df, job.KeyAt(i), job.CfgAt(i), job.bench(n, job.CfgAt(i)))
    requires recorded' == recorded + [job.KeyAt(i)]
    requires DoneWith(o, recorded') == (if recorded == [] then o.kept else DoneWith(o, recorded)) + iset{job.KeyAt(i)}
    ensures CsvOk(o, df', job.Knobs(), recorded')
  {
    FaithfulRows(job, i, n);
    AppendToAny(df, job.KeyAt(i), job.CfgAt(i), job.bench(n, job.CfgAt(i)));
    if recorded != [] {
      assert Lasting(df, job.Knobs()) == DoneSet(df, job.Knobs());
    }
  }

  lemma RecordOne(job: Job, o: Outset, df: Csv, idx: nat, recorded: seq<Key>, n: nat,
                  df': Csv, idx': nat, recorded': seq<Key>)
    requires ProgressOf(job, o, df, idx, true, recorded) && idx < |job.plan| && Faithful(job.bench, job.call.axis)
    requires df' == Append(df, job.KeyAt(idx), job.CfgAt(idx), job.bench(n, job.CfgAt(idx)))
    requires idx' == idx + 1 && recorded' == recorded + [job.KeyAt(idx)]
    ensures ProgressOf(job, o, df', idx', false, recorded')
  {
    KeysAt(job.call, job.plan, idx);
    RecordedMore(o, idx, recorded);
    AppendCsv(o, df, job, idx, n, df', recorded, recorded');
  }

  lemma RecordStep(job: Job, s: Session, m: Machine)
    requires Inv(job, s, m) && m.pc.InFlight? && m.idx < |job.plan| && Faithful(job.bench, job.call.axis)
    ensures Inv(job, s, Go(job, m))
  {
    var m' := Go(job, m);
    RecordOne(job, OutsetOf(job, s), m.s.df, m.idx, m.recorded, if m.s.ran == [] then 0 else |m.s.ran| - 1,
              m'.s.df, m'.idx, m'.recorded);
  }

  lemma IsDone(job: Job, df: Csv, i: nat)
    requires i < |job.plan|
    ensures job.KeyAt(i) in DoneSet(df, job.Knobs()) <==> df.rows != [] && Done(df, job.KeyAt(i))
  {
  }

  lemma CheckedPassed(o: Outset, idx: nat, recorded: seq<Key>)
    requires PassedOk(o, idx, false, recorded) && idx < |o.keys|
    ensures if o.keys[idx] in DoneWith(o, recorded) then PassedOk(o, idx + 1, false, recorded)
            else PassedOk(o, idx, true, recorded)
  {
  }

  lemma CheckStep(job: Job, s: Session, m: Machine)
    requires Inv(job, s, m) && m.idx < |job.plan| && !m.pc.InFlight?
    ensures Inv(job, s, Go(job, m))
  {
    KeysAt(job.call, job.plan, m.idx);
    IsDone(job, m.s.df, m.idx);
    if m.pc.Checking? {
      CheckedPassed(OutsetOf(job, s), m.idx, m.recorded);
    }
  }

  lemma KillStep(job: Job, s: Session, m: Machine)
    requires Inv(job, s, m)
    ensures Inv(job, s, Kill(m))
  {
  }

  lemma NextInv(job: Job, s: Session, m: Machine, m': Machine)
    requires Inv(job, s, m) && Next(job, m, m') && Faithful(job.bench, job.call.axis)
    ensures Inv(job, s, m')
  {
    if m' == Kill(m) {
      KillStep(job, s, m);
    } else if m.pc.InFlight? {
      RecordStep(job, s, m);
    } else {
      CheckStep(job, s, m);
    }
  }

  lemma InitInv(job: Job, s: Session)
    requires s.df.Valid()
    ensures Inv(job, s, Init(s))
  {
    KeysSize(job.call, job.plan);
  }

  lemma {:induction false} RunInv(job: Job, s: Session, run: seq<Machine>)
    requires Run(job, s, run) && s.df.Valid() && Faithful(job.bench, job.call.axis)
    ensures forall m <- run :: Inv(job, s, m)
  {
    InitInv(job, s);
    for k := 1 to |run|
      invariant forall j :: 0 <= j < k ==> Inv(job, s, run[j])
    {
      NextInv(job, s, run[k - 1], run[k]);
    }
  }

  // ----- the laws -----

  /**
   On any CSV, at any point of any run: no run is recorded twice, none that was not planned and
   none that lasts. From the first record on, what is done is what lasts and what is recorded.
   */
  lemma RecordedRuns(job: Job, s: Session, run: seq<Machine>, m: Machine)
    requires Run(job, s, run) && m in run && s.df.Valid() && Faithful(job.bench, job.call.axis)
    ensures Distinct(m.recorded)
    ensures forall t <- m.recorded :: t in job.Keys() && t !in Lasting(s.df, job.Knobs())
    ensures m.recorded != [] ==> m.recorded[0] !in DoneSet(s.df, job.Knobs())
    ensures m.recorded != [] ==>
              DoneSet(m.s.df, job.Knobs()) == Lasting(s.df, job.Knobs()) + Members(m.recorded)
    ensures m.recorded == [] ==> DoneSet(m.s.df, job.Knobs()) == DoneSet(s.df, job.Knobs())
  {
    RunInv(job, s, run);
  }

  /** A process that gets through the plan leaves every run recorded that was missing. */
  lemma NothingStaysMissing(job: Job, s: Session, run: seq<Machine>, m: Machine, key: Key)
    requires Run(job, s, run) && m in run && s.df.Valid() && Faithful(job.bench, job.call.axis)
    requires m.idx == |job.plan| && key in job.Keys() && key !in DoneSet(s.df, job.Knobs())
    ensures key in m.recorded && key in DoneSet(m.s.df, job.Knobs())
  {
    RunInv(job, s, run);
    KeysSize(job.call, job.plan);
    var i :| 0 <= i < |job.Keys()| && job.Keys()[i] == key;
  }

  /**
   On any CSV, at any point of any run: at most as many runs were started as the plan has that
   do not last, and one more for each kill.
   */
  lemma StartedRuns(job: Job, s: Session, run: seq<Machine>, m: Machine)
    requires Run(job, s, run) && m in run && s.df.Valid() && Faithful(job.bench, job.call.axis)
    ensures |m.recorded| + Flying(m) <= |Missing(job.Keys(), Lasting(s.df, job.Knobs()))|
    ensures Begun(s, m) <= |Missing(job.Keys(), Lasting(s.df, job.Knobs()))| + m.kills
  {
    EachOnItsImage(job, s, run);
    RunInv(job, s, run);
    var o := OutsetOf(job, s);
    if m.pc.InFlight? {
      RecordedMore(o, m.idx, m.recorded);
      DistinctFit(o.keys, o.kept, m.recorded + [o.keys[m.idx]]);
    } else {
      DistinctFit(o.keys, o.kept, m.recorded);
    }
  }

  // ----- where every done run lasts -----

  lemma AllLast(job: Job, s: Session)
    requires Ready(s.df, job.Knobs())
    ensures Lasting(s.df, job.Knobs()) == DoneSet(s.df, job.Knobs())
  {
  }

  /** There the present bound is that of the missing runs. */
  lemma StartedWhenReady(job: Job, s: Session, run: seq<Machine>, m: Machine)
    requires Run(job, s, run) && m in run && Ready(s.df, job.Knobs()) && Faithful(job.bench, job.call.axis)
    ensures Begun(s, m) <= |Missing(job.Keys(), DoneSet(s.df, job.Knobs()))| + m.kills
  {
    AllLast(job, s);
    StartedRuns(job, s, run, m);
  }

  /** The recorded runs begin what was missing, and the entries passed are done. */
  ghost predicate Ahead(keys: seq<Key>, done: iset<Key>, idx: nat, pending: bool, recorded: seq<Key>) {
    && idx <= |keys| && recorded <= Missing(keys, done)
    && (forall i :: 0 <= i < idx ==> keys[i] in done + Members(recorded))
    && (pending ==> idx < |keys| && keys[idx] !in done + Members(recorded))
  }

  /** The entry at hand, if it is not done, is the next of the missing ones. */
  lemma NextMissing(keys: seq<Key>, done: iset<Key>, idx: nat, recorded: seq<Key>)
    requires Ahead(keys, done, idx, true, recorded)
    ensures |recorded| < |Missing(keys, done)| && recorded + [keys[idx]] <= Missing(keys, done)
  {
    var j, now := |recorded|, done + Members(recorded);
    assert recorded == Missing(keys, done)[..j];
    ResumeContinues(keys, done, j);
    SkipDone(keys, now, idx);
    assert Missing(keys[idx..], now)[0] == keys[idx];
    assert Missing(keys, done)[j..][0] == keys[idx];
  }

  lemma RecordedAhead(keys: seq<Key>, done: iset<Key>, idx: nat, recorded: seq<Key>)
    requires Ahead(keys, done, idx, true, recorded)
    ensures Ahead(keys, done, idx + 1, false, recorded + [keys[idx]])
  {
    NextMissing(keys, done, idx, recorded);
    var more := recorded + [keys[idx]];
    forall i | 0 <= i < idx + 1 ensures keys[i] in done + Members(more) {
      if i < idx {
        assert keys[i] in done + Members(recorded);
      }
    }
  }

  ghost predicate InOrder(job: Job, done: iset<Key>, m: Machine) {
    Ahead(job.Keys(), done, m.idx, !m.pc.Checking?, m.recorded)
  }

  lemma OrderStep(job: Job, done: iset<Key>, m: Machine, m': Machine)
    requires InOrder(job, done, m) && Next(job, m, m')
    requires m.idx < |job.plan| ==> (Done(m.s.df, job.KeyAt(m.idx)) <==> job.KeyAt(m.idx) in done + Members(m.recorded))
    ensures InOrder(job, done, m')
  {
    if m' != Kill(m) {
      KeysAt(job.call, job.plan, m.idx);
      if m.pc.InFlight? {
        RecordedAhead(job.Keys(), done, m.idx, m.recorded);
      }
    }
  }

  /**
   And there what is recorded is at any point a beginning of the missing runs in plan order,
   and all of them once a process gets through the plan.
   */
  lemma RecordedInOrder(job: Job, s: Session, run: seq<Machine>, k: nat)
    requires Run(job, s, run) && k < |run| && Ready(s.df, job.Knobs()) && Faithful(job.bench, job.call.axis)
    ensures run[k].recorded <= Missing(job.Keys(), DoneSet(s.df, job.Knobs()))
    ensures run[k].idx == |job.plan| ==> run[k].recorded == Missing(job.Keys(), DoneSet(s.df, job.Knobs()))
  {
    var keys, done := job.Keys(), DoneSet(s.df, job.Knobs());
    RunInv(job, s, run);
    AllLast(job, s);
    KeysSize(job.call, job.plan);
    for j := 0 to k
      invariant InOrder(job, done, run[j])
    {
      assert run[j] in run && Next(job, run[j], run[j + 1]);
      InOrderAt(job, s, run[j], run[j + 1]);
    }
    if run[k].idx == |job.plan| {
      AllRecorded(keys, done, run[k].recorded);
    }
  }

  lemma InOrderAt(job: Job, s: Session, m: Machine, m': Machine)
    requires Inv(job, s, m) && InOrder(job, DoneSet(s.df, job.Knobs()), m) && Next(job, m, m')
    requires Lasting(s.df, job.Knobs()) == DoneSet(s.df, job.Knobs())
    ensures InOrder(job, DoneSet(s.df, job.Knobs()), m')
  {
    var done := DoneSet(s.df, job.Knobs());
    assert DoneSet(m.s.df, job.Knobs()) == done + Members(m.recorded);
    if m.idx < |job.plan| {
      IsDone(job, m.s.df, m.idx);
    }
    OrderStep(job, done, m, m');
  }

  lemma AllRecorded(keys: seq<Key>, done: iset<Key>, recorded: seq<Key>)
    requires Ahead(keys, done, |keys|, false, recorded)
    ensures recorded == Missing(keys, done)
  {
    assert recorded == Missing(keys, done)[..|recorded|];
    ResumeContinues(keys, done, |recorded|);
    SkipDone(keys, done + Members(recorded), |keys|);
    assert keys[|keys|..] == [];
  }
}
