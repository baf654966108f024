/**
 The shared block pool of the Linux S3 client: W x C slots draw block numbers from one
 atomic counter, and the C slots of a worker meet once at that worker's start barrier.
 One step is one atomic action of one slot, so a run is an interleaving.
 */
module BlockPool {
  import opened Sums

  datatype Config = Config(workers: nat, conns: nat, blocks: nat) {
    /** The zero sizes the program refuses at startup. */
    predicate Valid() { workers > 0 && conns > 0 }

    /** A configured 0 means one block per connection. */
    function BlocksPerWorker(): nat { if blocks == 0 then conns else blocks }

    function Total(): nat { workers * BlocksPerWorker() }

    function Slots(): nat { workers * conns }
  }

  datatype Outcome = Outcome(block: nat, received: nat, clean: bool, failed: bool)

  /** Where a slot is. A blocked slot remembers the barrier generation it arrived in. */
  datatype Phase =
    | Drawing
    | Arriving(block: nat)
    | Blocked(block: nat, gen: nat)
    | Fetching(block: nat)
    | Owing
    | BlockedIdle(gen: nat)
    | Finished

  datatype Slot = Slot(phase: Phase, outs: seq<Outcome>) {
    predicate Holding() { phase.Arriving? || phase.Blocked? || phase.Fetching? }

    /** The slot has seen a number at or above the total. */
    predicate Past() { phase.Owing? || phase.BlockedIdle? || phase.Finished? }

    predicate HasArrived() {
      phase.Blocked? || phase.BlockedIdle? || phase.Fetching? || phase.Finished? || outs != []
    }
  }

  /** `std::sync::Barrier`: the arrivals of the current generation, and the generation. */
  datatype Barrier = Barrier(arrived: nat, gen: nat)

  /** `clockStores` counts the writes of the worker's start time. */
  datatype Worker = Worker(slots: seq<Slot>, barrier: Barrier, clockStores: nat)

  datatype State = State(next: nat, workers: seq<Worker>)

  // ----- the step relation -----

  predicate InRange(st: State, w: nat, i: nat) {
    w < |st.workers| && i < |st.workers[w].slots|
  }

  predicate Enabled(st: State, w: nat, i: nat)
    requires InRange(st, w, i)
  {
    match st.workers[w].slots[i].phase
    case Blocked(_, g) => st.workers[w].barrier.gen != g
    case BlockedIdle(g) => st.workers[w].barrier.gen != g
    case Finished => false
    case _ => true
  }

  function Put(st: State, w: nat, i: nat, slot: Slot, barrier: Barrier, clockStores: nat): State
    requires InRange(st, w, i)
  {
    st.(workers := st.workers[w := Worker(st.workers[w].slots[i := slot], barrier, clockStores)])
  }

  function AfterDraw(cfg: Config, block: nat, outs: seq<Outcome>): Phase {
    if block < cfg.Total() then (if outs == [] then Arriving(block) else Fetching(block))
    else (if outs == [] then Owing else Finished)
  }

  /** One atomic action of slot `i` of worker `w`; `result` is what the network gave a fetch. */
  function Step(cfg: Config, st: State, w: nat, i: nat, result: Outcome): State
    requires InRange(st, w, i) && Enabled(st, w, i)
  {
    var wk := st.workers[w];
    var s := wk.slots[i];
    var bar := wk.barrier;
    var last := bar.arrived + 1 >= cfg.conns;
    var met := if last then Barrier(0, bar.gen + 1) else Barrier(bar.arrived + 1, bar.gen);
    match s.phase
    case Drawing =>
      Put(st, w, i, s.(phase := AfterDraw(cfg, st.next, s.outs)), bar, wk.clockStores).(next := st.next + 1)
    case Arriving(b) =>
      if last then Put(st, w, i, s.(phase := Fetching(b)), met, wk.clockStores + 1)
      else Put(st, w, i, s.(phase := Blocked(b, bar.gen)), met, wk.clockStores)
    case Blocked(b, _) =>
      Put(st, w, i, s.(phase := Fetching(b)), bar, wk.clockStores)
    case Fetching(b) =>
      Put(st, w, i, Slot(Drawing, s.outs + [result.(block := b)]), bar, wk.clockStores)
    case Owing =>
      Put(st, w, i, s.(phase := if last then Finished else BlockedIdle(bar.gen)), met, wk.clockStores)
    case BlockedIdle(_) =>
      Put(st, w, i, s.(phase := Finished), bar, wk.clockStores)
  }

  function Init(cfg: Config): State {
    State(0, seq(cfg.workers, _ => Worker(seq(cfg.conns, _ => Slot(Drawing, [])), Barrier(0, 0), 0)))
  }

  ghost predicate Next(cfg: Config, st: State, st': State) {
    exists w: nat, i: nat, r: Outcome :: Moves(cfg, st, w, i, r, st')
  }

  ghost predicate Moves(cfg: Config, st: State, w: nat, i: nat, r: Outcome, st': State) {
    InRange(st, w, i) && Enabled(st, w, i) && st' == Step(cfg, st, w, i, r)
  }

  /** A run: it starts at `Init` and every state follows from the one before it. */
  ghost predicate Run(cfg: Config, run: seq<State>) {
    && run != [] && run[0] == Init(cfg)
    && forall k :: 0 < k < |run| ==> Next(cfg, run[k - 1], run[k])
  }

  ghost predicate Stuck(st: State) {
    forall w: nat, i: nat :: InRange(st, w, i) ==> !Enabled(st, w, i)
  }

  predicate AllFinished(st: State) {
    forall wk <- st.workers :: forall s <- wk.slots :: s.phase.Finished?
  }

  // ----- accounting -----

  function One(c: bool): int { if c then 1 else 0 }

  function Arrived(): Slot -> int { (s: Slot) => One(s.HasArrived()) }
  function Pasts(): Slot -> int { (s: Slot) => One(s.Past()) }
  function Outs(): Slot -> int { (s: Slot) => |s.outs| }
  function Holds(): Slot -> int { (s: Slot) => One(s.Holding()) }
  function Of(b: nat): Outcome -> int { (o: Outcome) => One(o.block == b) }

  /** How often block `b` is in a slot's hands: fetched already, or being fetched. */
  function Has(b: nat): Slot -> int {
    (s: Slot) => Sum(Of(b), s.outs) + One(s.Holding() && s.phase.block == b)
  }

  function Rank(): Slot -> int {
    (s: Slot) => match s.phase
      case Finished => 0
      case BlockedIdle(_) => 1
      case Owing => 2
      case Drawing => 3
      case Fetching(_) => 4
      case Blocked(_, _) => 5
      case Arriving(_) => 6
  }

  function PerWorker(f: Slot -> int): Worker -> int { (wk: Worker) => Sum(f, wk.slots) }

  function Tally(f: Slot -> int, st: State): int { Sum(PerWorker(f), st.workers) }

  lemma TallyPut(f: Slot -> int, st: State, w: nat, i: nat, s: Slot, b: Barrier, c: nat)
    requires InRange(st, w, i)
    ensures Tally(f, Put(st, w, i, s, b, c)) == Tally(f, st) - f(st.workers[w].slots[i]) + f(s)
  {
    SumUpdate(f, st.workers[w].slots, i, s);
    SumUpdate(PerWorker(f), st.workers, w, Worker(st.workers[w].slots[i := s], b, c));
  }

  // ----- the invariant -----

  predicate SlotOk(s: Slot, bar: Barrier) {
    && (s.phase.Arriving? || s.phase.Blocked? || s.phase.Owing? || s.phase.BlockedIdle? ==> s.outs == [])
    && (s.phase.Blocked? || s.phase.BlockedIdle? ==> s.phase.gen == 0)
    && (bar.gen == 0 && s.HasArrived() ==> s.phase.Blocked? || s.phase.BlockedIdle?)
    && (bar.gen == 1 ==> s.HasArrived())
  }

  /** Exactly the slots that arrived are counted, and the barrier opens once. */
  predicate WorkerOk(cfg: Config, wk: Worker) {
    && |wk.slots| == cfg.conns
    && wk.barrier.arrived < cfg.conns
    && wk.barrier.gen <= 1
    && wk.clockStores <= wk.barrier.gen
    && (wk.barrier.gen == 1 ==> wk.barrier.arrived == 0)
    && Sum(Arrived(), wk.slots) == wk.barrier.gen * cfg.conns + wk.barrier.arrived
    && forall s <- wk.slots :: SlotOk(s, wk.barrier)
  }

  /** Every number handed out below the total is in exactly one slot's hands, no other is. */
  ghost predicate Accounted(cfg: Config, st: State) {
    && (forall b: nat :: Tally(Has(b), st) == One(b < st.next && b < cfg.Total()))
    && Tally(Outs(), st) + Tally(Holds(), st) == (if st.next < cfg.Total() then st.next else cfg.Total())
    && Tally(Outs(), st) + Tally(Holds(), st) + Tally(Pasts(), st) == st.next
  }

  ghost predicate Inv(cfg: Config, st: State) {
    && cfg.Valid()
    && |st.workers| == cfg.workers
    && (forall wk <- st.workers :: WorkerOk(cfg, wk))
    && Accounted(cfg, st)
  }

  lemma {:induction false} SumZero<T>(f: T -> int, s: seq<T>)
    requires forall x <- s :: f(x) == 0
    ensures Sum(f, s) == 0
  {
    SumBounds(f, s, 0, 0);
  }

  lemma InitInv(cfg: Config)
    requires cfg.Valid()
    ensures Inv(cfg, Init(cfg))
  {
    var st := Init(cfg);
    forall f: Slot -> int | f(Slot(Drawing, [])) == 0
      ensures forall wk <- st.workers :: Sum(f, wk.slots) == 0
      ensures Tally(f, st) == 0
    {
      forall wk <- st.workers ensures Sum(f, wk.slots) == 0 {
        SumZero(f, wk.slots);
      }
      SumZero(PerWorker(f), st.workers);
    }
    forall b: nat ensures Tally(Has(b), st) == 0 {
      assert Has(b)(Slot(Drawing, [])) == 0;
    }
    assert Outs()(Slot(Drawing, [])) == Holds()(Slot(Drawing, [])) == 0;
    assert Pasts()(Slot(Drawing, [])) == Arrived()(Slot(Drawing, [])) == 0;
  }

  /** When as many slots have arrived as there are, each one has. */
  lemma {:induction false} EveryoneArrived(slots: seq<Slot>)
    requires Sum(Arrived(), slots) == |slots|
    ensures forall s <- slots :: s.HasArrived()
  {
    if slots != [] {
      SumBounds(Arrived(), slots[1..], 0, 1);
      EveryoneArrived(slots[1..]);
    }
  }

  /** A slot arrives at the barrier exactly when it acts on its first number. */
  lemma ArrivalDelta(cfg: Config, st: State, w: nat, i: nat, r: Outcome)
    requires InRange(st, w, i) && Enabled(st, w, i) && SlotOk(st.workers[w].slots[i], st.workers[w].barrier)
    ensures
      var wk, wk' := st.workers[w], Step(cfg, st, w, i, r).workers[w];
      var arrives := wk.slots[i].phase.Arriving? || wk.slots[i].phase.Owing?;
      && |wk'.slots| == |wk.slots| && wk'.slots == wk.slots[i := wk'.slots[i]]
      && Arrived()(wk'.slots[i]) == Arrived()(wk.slots[i]) + One(arrives)
      && wk'.clockStores <= wk.clockStores + wk'.barrier.gen - wk.barrier.gen
      && wk'.barrier == if !arrives then wk.barrier
                        else if wk.barrier.arrived + 1 >= cfg.conns then Barrier(0, wk.barrier.gen + 1)
                        else Barrier(wk.barrier.arrived + 1, wk.barrier.gen)
  {
  }

  lemma ArrivalStep(cfg: Config, st: State, w: nat, i: nat, r: Outcome)
    requires Inv(cfg, st) && InRange(st, w, i) && Enabled(st, w, i)
    ensures
      var wk' := Step(cfg, st, w, i, r).workers[w];
      && Sum(Arrived(), wk'.slots) == wk'.barrier.gen * cfg.conns + wk'.barrier.arrived
      && wk'.barrier.gen <= 1 && (wk'.barrier.gen == 1 ==> wk'.barrier.arrived == 0)
      && wk'.clockStores <= wk'.barrier.gen
  {
    var wk, wk' := st.workers[w], Step(cfg, st, w, i, r).workers[w];
    assert WorkerOk(cfg, wk);
    assert SlotOk(wk.slots[i], wk.barrier);
    ArrivalDelta(cfg, st, w, i, r);
    SumUpdate(Arrived(), wk.slots, i, wk'.slots[i]);
    SumBounds(Arrived(), wk'.slots, 0, 1);
    assert wk.barrier.gen == 0 || wk.barrier.gen == 1;
  }

  lemma SlotStep(cfg: Config, st: State, w: nat, i: nat, r: Outcome, k: nat)
    requires InRange(st, w, i) && Enabled(st, w, i) && WorkerOk(cfg, st.workers[w]) && k < |st.workers[w].slots|
    requires
      var wk' := Step(cfg, st, w, i, r).workers[w];
      wk'.barrier.gen == 1 ==> forall s <- wk'.slots :: s.HasArrived()
    ensures
      var wk' := Step(cfg, st, w, i, r).workers[w];
      SlotOk(wk'.slots[k], wk'.barrier)
  {
    var wk, wk' := st.workers[w], Step(cfg, st, w, i, r).workers[w];
    assert SlotOk(wk.slots[k], wk.barrier);
    assert wk'.slots[k] in wk'.slots;
    assert k != i ==> wk'.slots[k] == wk.slots[k];
  }

  lemma WorkerStep(cfg: Config, st: State, w: nat, i: nat, r: Outcome)
    requires Inv(cfg, st) && InRange(st, w, i) && Enabled(st, w, i)
    ensures WorkerOk(cfg, Step(cfg, st, w, i, r).workers[w])
  {
    var wk' := Step(cfg, st, w, i, r).workers[w];
    assert WorkerOk(cfg, st.workers[w]);
    ArrivalStep(cfg, st, w, i, r);
    if wk'.barrier.gen == 1 {
      EveryoneArrived(wk'.slots);
    }
    forall k | 0 <= k < |wk'.slots| ensures SlotOk(wk'.slots[k], wk'.barrier) {
      SlotStep(cfg, st, w, i, r, k);
    }
  }

  /** What one step changes in the moving slot's accounts. */
  lemma SlotDelta(cfg: Config, st: State, w: nat, i: nat, r: Outcome, b: nat)
    requires InRange(st, w, i) && Enabled(st, w, i)
    requires SlotOk(st.workers[w].slots[i], st.workers[w].barrier)
    ensures
      var s, s' := st.workers[w].slots[i], Step(cfg, st, w, i, r).workers[w].slots[i];
      var draws := s.phase.Drawing?;
      && Has(b)(s') == Has(b)(s) + One(draws && st.next == b && b < cfg.Total())
      && Outs()(s') + Holds()(s') == Outs()(s) + Holds()(s) + One(draws && st.next < cfg.Total())
      && Pasts()(s') == Pasts()(s) + One(draws && st.next >= cfg.Total())
      && Step(cfg, st, w, i, r).next == st.next + One(draws)
  {
    var s, s' := st.workers[w].slots[i], Step(cfg, st, w, i, r).workers[w].slots[i];
    if s.phase.Fetching? {
      SumConcat(Of(b), s.outs, [r.(block := s.phase.block)]);
    }
  }

  lemma AccountStep(cfg: Config, st: State, w: nat, i: nat, r: Outcome)
    requires Inv(cfg, st) && InRange(st, w, i) && Enabled(st, w, i)
    ensures Accounted(cfg, Step(cfg, st, w, i, r))
  {
    var st' := Step(cfg, st, w, i, r);
    assert WorkerOk(cfg, st.workers[w]) && SlotOk(st.workers[w].slots[i], st.workers[w].barrier);
    forall b: nat ensures Tally(Has(b), st') == One(b < st'.next && b < cfg.Total()) {
      TallyStep(cfg, st, w, i, r, Has(b));
      SlotDelta(cfg, st, w, i, r, b);
    }
    SlotDelta(cfg, st, w, i, r, 0);
    TallyStep(cfg, st, w, i, r, Outs());
    TallyStep(cfg, st, w, i, r, Holds());
    TallyStep(cfg, st, w, i, r, Pasts());
  }

  lemma TallyStep(cfg: Config, st: State, w: nat, i: nat, r: Outcome, f: Slot -> int)
    requires InRange(st, w, i) && Enabled(st, w, i)
    ensures
      var st' := Step(cfg, st, w, i, r);
      Tally(f, st') == Tally(f, st) - f(st.workers[w].slots[i]) + f(st'.workers[w].slots[i])
  {
    var wk' := Step(cfg, st, w, i, r).workers[w];
    TallyPut(f, st, w, i, wk'.slots[i], wk'.barrier, wk'.clockStores);
  }

  lemma StepInv(cfg: Config, st: State, w: nat, i: nat, r: Outcome)
    requires Inv(cfg, st) && InRange(st, w, i) && Enabled(st, w, i)
    ensures Inv(cfg, Step(cfg, st, w, i, r))
  {
    WorkerStep(cfg, st, w, i, r);
    AccountStep(cfg, st, w, i, r);
  }

  lemma {:induction false} RunInv(cfg: Config, run: seq<State>)
    requires cfg.Valid() && Run(cfg, run)
    ensures forall st <- run :: Inv(cfg, st)
  {
    InitInv(cfg);
    for k := 1 to |run|
      invariant forall j :: 0 <= j < k ==> Inv(cfg, run[j])
    {
      var w: nat, i: nat, r: Outcome :| Moves(cfg, run[k - 1], w, i, r, run[k]);
      StepInv(cfg, run[k - 1], w, i, r);
    }
  }

  // ----- progress -----

  /** A worker with work left always has a slot that can move: its own barrier never locks it. */
  lemma WorkerProgress(cfg: Config, st: State, w: nat) returns (i: nat)
    requires Inv(cfg, st) && w < |st.workers|
    requires exists s <- st.workers[w].slots :: !s.phase.Finished?
    ensures InRange(st, w, i) && Enabled(st, w, i)
  {
    var wk := st.workers[w];
    assert WorkerOk(cfg, wk);
    if wk.barrier.gen == 0 {
      i := SumBelow(Arrived(), wk.slots, 1);
    } else {
      i :| i < |wk.slots| && !wk.slots[i].phase.Finished?;
    }
    assert SlotOk(wk.slots[i], wk.barrier);
  }

  lemma NoDeadlock(cfg: Config, st: State)
    requires Inv(cfg, st)
    ensures Stuck(st) <==> AllFinished(st)
  {
    if !AllFinished(st) {
      var wk :| wk in st.workers && exists s <- wk.slots :: !s.phase.Finished?;
      var w :| 0 <= w < |st.workers| && st.workers[w] == wk;
      var i := WorkerProgress(cfg, st, w);
    }
  }

  function Measure(cfg: Config, st: State): int {
    4 * (if st.next < cfg.Total() then cfg.Total() - st.next else 0) + Tally(Rank(), st)
  }

  lemma MeasureNat(cfg: Config, st: State)
    ensures Measure(cfg, st) >= 0
  {
    forall wk <- st.workers ensures 0 <= PerWorker(Rank())(wk) <= Max(PerWorker(Rank()), st.workers) {
      SumBounds(Rank(), wk.slots, 0, 6);
    }
    SumBounds(PerWorker(Rank()), st.workers, 0, Max(PerWorker(Rank()), st.workers));
  }

  lemma StepDecreases(cfg: Config, st: State, w: nat, i: nat, r: Outcome)
    requires InRange(st, w, i) && Enabled(st, w, i)
    ensures Measure(cfg, Step(cfg, st, w, i, r)) < Measure(cfg, st)
  {
    TallyStep(cfg, st, w, i, r, Rank());
  }

  lemma Tripled(c: nat, w: nat)
    ensures 3 * c * w == 3 * (w * c)
  {
  }

  lemma InitMeasure(cfg: Config)
    ensures Measure(cfg, Init(cfg)) == 4 * cfg.Total() + 3 * cfg.Slots()
  {
    var st := Init(cfg);
    var c := 3 * cfg.conns;
    forall wk <- st.workers ensures PerWorker(Rank())(wk) == c {
      SumBounds(Rank(), wk.slots, 3, 3);
    }
    SumBounds(PerWorker(Rank()), st.workers, c, c);
    Tripled(cfg.conns, cfg.workers);
  }

  /** No run takes more than `4 * total + 3 * slots` steps, whatever the interleaving. */
  lemma {:induction false} RunLength(cfg: Config, run: seq<State>)
    requires cfg.Valid() && Run(cfg, run)
    ensures |run| - 1 <= 4 * cfg.Total() + 3 * cfg.Slots()
  {
    InitMeasure(cfg);
    for k := 1 to |run|
      invariant Measure(cfg, run[k - 1]) <= Measure(cfg, run[0]) - (k - 1)
    {
      var w: nat, i: nat, r: Outcome :| Moves(cfg, run[k - 1], w, i, r, run[k]);
      StepDecreases(cfg, run[k - 1], w, i, r);
    }
    MeasureNat(cfg, run[|run| - 1]);
  }

  // ----- what a finished run leaves behind -----

  function SlotOutcomes(slots: seq<Slot>): seq<Outcome> {
    if slots == [] then [] else slots[0].outs + SlotOutcomes(slots[1..])
  }

  /** Everything the joins hand back, in spawn order. */
  function AllOutcomes(workers: seq<Worker>): seq<Outcome> {
    if workers == [] then [] else SlotOutcomes(workers[0].slots) + AllOutcomes(workers[1..])
  }

  lemma {:induction false} SlotOutcomesTally(slots: seq<Slot>, b: nat)
    requires forall s <- slots :: s.phase.Finished?
    ensures Sum(Of(b), SlotOutcomes(slots)) == Sum(Has(b), slots)
    ensures |SlotOutcomes(slots)| == Sum(Outs(), slots)
  {
    if slots != [] {
      SumConcat(Of(b), slots[0].outs, SlotOutcomes(slots[1..]));
      SlotOutcomesTally(slots[1..], b);
    }
  }

  lemma {:induction false} AllOutcomesTally(workers: seq<Worker>, b: nat)
    requires forall wk <- workers :: forall s <- wk.slots :: s.phase.Finished?
    ensures Sum(Of(b), AllOutcomes(workers)) == Sum(PerWorker(Has(b)), workers)
    ensures |AllOutcomes(workers)| == Sum(PerWorker(Outs()), workers)
  {
    if workers != [] {
      SumConcat(Of(b), SlotOutcomes(workers[0].slots), AllOutcomes(workers[1..]));
      SlotOutcomesTally(workers[0].slots, b);
      assert forall wk <- workers[1..] :: wk in workers;
      AllOutcomesTally(workers[1..], b);
    }
  }

  lemma FinishedTallies(cfg: Config, st: State)
    requires Inv(cfg, st) && AllFinished(st)
    ensures Tally(Holds(), st) == 0 && Tally(Pasts(), st) == cfg.Slots()
    ensures forall wk <- st.workers :: wk.barrier == Barrier(0, 1)
  {
    var c := cfg.conns;
    forall wk <- st.workers
      ensures PerWorker(Holds())(wk) == 0 && PerWorker(Pasts())(wk) == c && wk.barrier == Barrier(0, 1)
    {
      assert WorkerOk(cfg, wk);
      SumBounds(Holds(), wk.slots, 0, 0);
      SumBounds(Pasts(), wk.slots, 1, 1);
      SumBounds(Arrived(), wk.slots, 1, 1);
    }
    SumBounds(PerWorker(Holds()), st.workers, 0, 0);
    SumBounds(PerWorker(Pasts()), st.workers, c, c);
  }

  /**
   A run that can go no further has finished: every block was fetched exactly once, the
   counter stands at the total plus one overdraw per slot, and every barrier opened once.
   */
  lemma RunsComplete(cfg: Config, run: seq<State>)
    requires cfg.Valid() && Run(cfg, run) && Stuck(run[|run| - 1])
    ensures
      var st := run[|run| - 1];
      var outs := AllOutcomes(st.workers);
      && AllFinished(st)
      && st.next == cfg.Total() + cfg.Slots()
      && |outs| == cfg.Total()
      && (forall b: nat :: Sum(Of(b), outs) == One(b < cfg.Total()))
      && (forall wk <- st.workers :: wk.barrier == Barrier(0, 1))
  {
    var st := run[|run| - 1];
    RunInv(cfg, run);
    NoDeadlock(cfg, st);
    FinishedTallies(cfg, st);
    assert cfg.Slots() >= 1;
    forall b: nat
      ensures Sum(Of(b), AllOutcomes(st.workers)) == One(b < cfg.Total())
      ensures |AllOutcomes(st.workers)| == cfg.Total()
    {
      AllOutcomesTally(st.workers, b);
    }
    AllOutcomesTally(st.workers, 0);
  }

  /** A sum of ones is 1 exactly when a single outcome is of the block, 0 when none is. */
  lemma {:induction false} OnceMeans(outs: seq<Outcome>, b: nat)
    ensures Sum(Of(b), outs) >= 0
    ensures Sum(Of(b), outs) == 0 <==> forall i :: 0 <= i < |outs| ==> outs[i].block != b
    ensures Sum(Of(b), outs) == 1 ==> FetchedOnce(outs, b)
  {
    if outs != [] {
      var rest := outs[1..];
      OnceMeans(rest, b);
      assert forall i :: 0 < i < |outs| ==> outs[i] == rest[i - 1];
      if Sum(Of(b), outs) == 1 {
        if outs[0].block == b {
          assert IsOnly(outs, b, 0);
        } else {
          var i :| 0 <= i < |rest| && IsOnly(rest, b, i);
          assert IsOnly(outs, b, i + 1);
        }
      }
    }
  }

  /** The only outcome of this block. */
  predicate IsOnly(outs: seq<Outcome>, b: nat, i: int) {
    0 <= i < |outs| && outs[i].block == b && forall j :: 0 <= j < |outs| && j != i ==> outs[j].block != b
  }

  predicate FetchedOnce(outs: seq<Outcome>, b: nat) { exists i :: 0 <= i < |outs| && IsOnly(outs, b, i) }

  /**
   On the configuration's own numbers: with a number of blocks set, each below workers x blocks
   is fetched by one connection once, without one each below workers x connections, and no
   other; the counter ends there plus one number per connection.
   */
  lemma BlocksFetched(cfg: Config, run: seq<State>)
    requires cfg.workers > 0 && cfg.conns > 0 && Run(cfg, run) && Stuck(run[|run| - 1])
    ensures
      var st := run[|run| - 1];
      var outs := AllOutcomes(st.workers);
      var want := if cfg.blocks > 0 then cfg.workers * cfg.blocks else cfg.workers * cfg.conns;
      && |outs| == want && st.next == want + cfg.workers * cfg.conns
      && (forall b: nat :: b < want ==> FetchedOnce(outs, b))
      && (forall i :: 0 <= i < |outs| ==> outs[i].block < want)
  {
    var st := run[|run| - 1];
    var outs := AllOutcomes(st.workers);
    RunsComplete(cfg, run);
    forall b: nat
      ensures b < cfg.Total() ==> FetchedOnce(outs, b)
      ensures b >= cfg.Total() ==> forall i :: 0 <= i < |outs| ==> outs[i].block != b
    {
      OnceMeans(outs, b);
    }
    forall i | 0 <= i < |outs| ensures outs[i].block < cfg.Total() {
      OnceMeans(outs, outs[i].block);
    }
  }

  /** At no point of any run is a block in two slots' hands. */
  lemma NeverTwice(cfg: Config, run: seq<State>, st: State, b: nat)
    requires cfg.Valid() && Run(cfg, run) && st in run
    ensures 0 <= Tally(Has(b), st) <= 1
    ensures Tally(Has(b), st) == 1 <==> b < st.next && b < cfg.Total()
  {
    RunInv(cfg, run);
  }
}
