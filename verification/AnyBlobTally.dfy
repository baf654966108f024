/**
 The completion accounting of the AnyBlob client. Every response runs a callback whose
 counter updates are separate atomic steps, interleaved with those of other callbacks; the
 main thread waits for `finished` alone and then reads every other counter.
 */
module AnyBlobTally {
  import opened Sums

  const WANT_CODE := 206

  datatype Response = Response(success: bool, size: nat, code: nat)

  /** What the callback did so far. */
  datatype Progress = Waiting | BytesAdded | DoneAdded | Classed | Finished

  datatype Request = Request(progress: Progress, response: Response)

  datatype Class = Ok | Failed | BadStatus | ShortBody

  datatype State = State(
    requests: seq<Request>,
    bytes: seq<nat>,
    done: seq<nat>,
    ok: nat, failed: nat, badStatus: nat, shortBody: nat,
    finished: nat)

  function Size(r: Response): nat { if r.success then r.size else 0 }

  function Classify(r: Response, block: nat): Class {
    if !r.success then Failed
    else if r.code != WANT_CODE then BadStatus
    else if r.size != block then ShortBody
    else Ok
  }

  function Init(responses: seq<Response>, workers: nat): State {
    State(seq(|responses|, k requires 0 <= k < |responses| => Request(Waiting, responses[k])),
          seq(workers, _ => 0), seq(workers, _ => 0), 0, 0, 0, 0, 0)
  }

  predicate Enabled(st: State, k: nat, w: nat) {
    k < |st.requests| && w < |st.bytes| == |st.done| && !st.requests[k].progress.Finished?
  }

  /** The next atomic update of the callback of request `k`, run by daemon `w`. */
  function Step(st: State, block: nat, k: nat, w: nat): State
    requires Enabled(st, k, w)
  {
    var q := st.requests[k];
    var at := (p: Progress) => st.requests[k := q.(progress := p)];
    match q.progress
    case Waiting => st.(requests := at(BytesAdded), bytes := st.bytes[w := st.bytes[w] + Size(q.response)])
    case BytesAdded => st.(requests := at(DoneAdded), done := st.done[w := st.done[w] + 1])
    case DoneAdded =>
      (match Classify(q.response, block)
       case Failed => st.(requests := at(Classed), failed := st.failed + 1)
       case BadStatus => st.(requests := at(Classed), badStatus := st.badStatus + 1)
       case ShortBody => st.(requests := at(Classed), shortBody := st.shortBody + 1)
       case Ok => st.(requests := at(Classed), ok := st.ok + 1))
    case Classed => st.(requests := at(Finished), finished := st.finished + 1)
  }

  ghost predicate Moves(st: State, block: nat, k: nat, w: nat, st': State) {
    Enabled(st, k, w) && st' == Step(st, block, k, w)
  }

  ghost predicate Run(responses: seq<Response>, workers: nat, block: nat, run: seq<State>) {
    && run != [] && run[0] == Init(responses, workers)
    && forall i :: 0 < i < |run| ==> Next(run[i - 1], block, run[i])
  }

  ghost predicate Next(st: State, block: nat, st': State) {
    exists k: nat, w: nat :: Moves(st, block, k, w, st')
  }

  // ----- the accounting invariant -----

  function One(c: bool): int { if c then 1 else 0 }

  function Id(): nat -> int { (n: nat) => n }

  function InBytes(): Request -> int { (q: Request) => if q.progress.Waiting? then 0 else Size(q.response) }

  function InDone(): Request -> int { (q: Request) => One(!q.progress.Waiting? && !q.progress.BytesAdded?) }

  function InClass(block: nat, c: Class): Request -> int {
    (q: Request) => One((q.progress.Classed? || q.progress.Finished?) && Classify(q.response, block) == c)
  }

  function InAnyClass(): Request -> int { (q: Request) => One(q.progress.Classed? || q.progress.Finished?) }

  function InFinished(): Request -> int { (q: Request) => One(q.progress.Finished?) }

  /** The per-daemon counters and the published count. */
  ghost predicate Counted(st: State) {
    && |st.bytes| == |st.done|
    && Sum(Id(), st.bytes) == Sum(InBytes(), st.requests)
    && Sum(Id(), st.done) == Sum(InDone(), st.requests)
    && st.finished == Sum(InFinished(), st.requests)
  }

  /** The four classes. */
  ghost predicate Sorted(block: nat, st: State) {
    && st.ok == Sum(InClass(block, Ok), st.requests)
    && st.failed == Sum(InClass(block, Failed), st.requests)
    && st.badStatus == Sum(InClass(block, BadStatus), st.requests)
    && st.shortBody == Sum(InClass(block, ShortBody), st.requests)
    && st.ok + st.failed + st.badStatus + st.shortBody == Sum(InAnyClass(), st.requests)
  }

  ghost predicate Inv(responses: seq<Response>, block: nat, st: State) {
    && |st.requests| == |responses|
    && (forall k :: 0 <= k < |responses| ==> st.requests[k].response == responses[k])
    && Counted(st) && Sorted(block, st)
  }

  lemma InitInv(responses: seq<Response>, workers: nat, block: nat)
    ensures Inv(responses, block, Init(responses, workers))
  {
    var st := Init(responses, workers);
    SumBounds(Id(), st.bytes, 0, 0);
    forall f: Request -> int | forall r :: f(Request(Waiting, r)) == 0 ensures Sum(f, st.requests) == 0 {
      SumBounds(f, st.requests, 0, 0);
    }
    assert forall r :: InBytes()(Request(Waiting, r)) == InDone()(Request(Waiting, r)) == 0;
    assert forall c, r :: InClass(block, c)(Request(Waiting, r)) == 0;
    assert forall r :: InAnyClass()(Request(Waiting, r)) == InFinished()(Request(Waiting, r)) == 0;
  }

  lemma StepCounted(st: State, block: nat, k: nat, w: nat)
    requires Counted(st) && Enabled(st, k, w)
    ensures Counted(Step(st, block, k, w))
  {
    DaemonStep(st, block, k, w);
    RequestStep(st, block, k, w, InBytes());
    RequestStep(st, block, k, w, InDone());
    RequestStep(st, block, k, w, InFinished());
  }

  /** A step changes one request, and every sum over the requests by that one's term. */
  lemma RequestStep(st: State, block: nat, k: nat, w: nat, f: Request -> int)
    requires Enabled(st, k, w)
    ensures
      var st' := Step(st, block, k, w);
      && |st'.requests| == |st.requests|
      && Sum(f, st'.requests) == Sum(f, st.requests) - f(st.requests[k]) + f(st'.requests[k])
  {
    var q' := Step(st, block, k, w).requests[k];
    assert Step(st, block, k, w).requests == st.requests[k := q'];
    SumUpdate(f, st.requests, k, q');
  }

  lemma DaemonStep(st: State, block: nat, k: nat, w: nat)
    requires Enabled(st, k, w)
    ensures
      var st', q := Step(st, block, k, w), st.requests[k];
      && |st'.bytes| == |st.bytes| && |st'.done| == |st.done|
      && Sum(Id(), st'.bytes) == Sum(Id(), st.bytes) + (if q.progress.Waiting? then Size(q.response) else 0)
      && Sum(Id(), st'.done) == Sum(Id(), st.done) + One(q.progress.BytesAdded?)
  {
    var st' := Step(st, block, k, w);
    SumUpdate(Id(), st.bytes, w, st'.bytes[w]);
    SumUpdate(Id(), st.done, w, st'.done[w]);
  }

  lemma StepSorted(st: State, block: nat, k: nat, w: nat)
    requires Sorted(block, st) && Enabled(st, k, w)
    ensures Sorted(block, Step(st, block, k, w))
  {
    ClassStep(st, block, k, w, Ok);
    ClassStep(st, block, k, w, Failed);
    ClassStep(st, block, k, w, BadStatus);
    ClassStep(st, block, k, w, ShortBody);
    RequestStep(st, block, k, w, InAnyClass());
  }

  lemma ClassStep(st: State, block: nat, k: nat, w: nat, c: Class)
    requires Enabled(st, k, w)
    ensures
      var q := st.requests[k];
      Sum(InClass(block, c), Step(st, block, k, w).requests)
      == Sum(InClass(block, c), st.requests) + One(q.progress.DoneAdded? && Classify(q.response, block) == c)
  {
    RequestStep(st, block, k, w, InClass(block, c));
  }

  lemma StepInv(responses: seq<Response>, st: State, block: nat, k: nat, w: nat)
    requires Inv(responses, block, st) && Enabled(st, k, w)
    ensures Inv(responses, block, Step(st, block, k, w))
  {
    StepCounted(st, block, k, w);
    StepSorted(st, block, k, w);
  }

  lemma NextInv(responses: seq<Response>, st: State, block: nat, st': State)
    requires Inv(responses, block, st) && Next(st, block, st')
    ensures Inv(responses, block, st')
  {
    var k: nat, w: nat :| Moves(st, block, k, w, st');
    StepInv(responses, st, block, k, w);
  }

  lemma {:induction false} RunInv(responses: seq<Response>, workers: nat, block: nat, run: seq<State>)
    requires Run(responses, workers, block, run)
    ensures forall st <- run :: Inv(responses, block, st)
  {
    InitInv(responses, workers, block);
    for i := 1 to |run|
      invariant forall j :: 0 <= j < i ==> Inv(responses, block, run[j])
    {
      NextInv(responses, run[i - 1], block, run[i]);
    }
  }

  /**
   In every interleaving the published count never runs ahead of the classes, and the
   unsigned `total - finished` of the idle test cannot wrap.
   */
  lemma NeverAhead(responses: seq<Response>, workers: nat, block: nat, run: seq<State>, st: State)
    requires Run(responses, workers, block, run) && st in run
    ensures st.finished <= st.ok + st.failed + st.badStatus + st.shortBody <= |responses|
  {
    RunInv(responses, workers, block, run);
    var notYet := (q: Request) => One(q.progress.Classed?);
    SumAdd(InFinished(), notYet, InAnyClass(), st.requests);
    SumBounds(notYet, st.requests, 0, 1);
    SumBounds(InAnyClass(), st.requests, 0, 1);
  }

  lemma {:induction false} AllFinished(requests: seq<Request>)
    requires Sum(InFinished(), requests) == |requests|
    ensures forall q <- requests :: q.progress.Finished?
  {
    if requests != [] {
      SumBounds(InFinished(), requests[1..], 0, 1);
      AllFinished(requests[1..]);
    }
  }

  function Sizes(): Response -> int { (r: Response) => Size(r) }

  /** Once the main thread sees the full count, no counter can change any more. */
  lemma FinalWhenFull(responses: seq<Response>, workers: nat, block: nat, run: seq<State>, st: State)
    requires Run(responses, workers, block, run) && st in run && st.finished >= |responses|
    ensures forall k, w :: !Enabled(st, k, w)
    ensures st.ok + st.failed + st.badStatus + st.shortBody == Sum(Id(), st.done) == |responses|
    ensures Sum(Id(), st.bytes) == Sum(Sizes(), responses)
  {
    RunInv(responses, workers, block, run);
    SumBounds(InFinished(), st.requests, 0, 1);
    AllFinished(st.requests);
    SumBounds(InAnyClass(), st.requests, 1, 1);
    SumBounds(InDone(), st.requests, 1, 1);
    ResponseSum(st.requests, responses);
  }

  lemma {:induction false} ResponseSum(requests: seq<Request>, responses: seq<Response>)
    requires |requests| == |responses|
    requires forall k :: 0 <= k < |requests| ==> requests[k].progress.Finished? && requests[k].response == responses[k]
    ensures Sum(InBytes(), requests) == Sum(Sizes(), responses)
  {
    if requests != [] {
      ResponseSum(requests[1..], responses[1..]);
    }
  }

  /** The program's test for its COMPLETE line. */
  predicate Complete(st: State, total: nat, block: nat) {
    && st.ok == total && Sum(Id(), st.bytes) == total * block
    && st.failed == 0 && st.badStatus == 0 && st.shortBody == 0
  }

  predicate Exact(r: Response, block: nat) { r.success && r.code == WANT_CODE && r.size == block }

  lemma OkMeansExact(responses: seq<Response>, block: nat, st: State, k: nat)
    requires Inv(responses, block, st) && st.ok == |responses| && k < |responses|
    ensures Exact(responses[k], block)
  {
    SumBounds(InClass(block, Ok), st.requests, 0, 1);
    if !Exact(responses[k], block) {
      SumMissing(InClass(block, Ok), st.requests, k);
    }
  }

  lemma ExactMeansOk(responses: seq<Response>, block: nat, st: State)
    requires Inv(responses, block, st) && st.finished >= |responses|
    requires forall r <- responses :: Exact(r, block)
    ensures st.ok == |responses|
  {
    SumBounds(InFinished(), st.requests, 0, 1);
    AllFinished(st.requests);
    assert forall q <- st.requests :: q.response in responses;
    SumBounds(InClass(block, Ok), st.requests, 1, 1);
  }

  /** COMPLETE is printed if and only if every response succeeded, said 206 and had the block size. */
  lemma VerdictExact(responses: seq<Response>, workers: nat, block: nat, run: seq<State>, st: State)
    requires Run(responses, workers, block, run) && st in run && st.finished >= |responses|
    ensures Complete(st, |responses|, block) <==> forall r <- responses :: Exact(r, block)
  {
    FinalWhenFull(responses, workers, block, run, st);
    assert Inv(responses, block, st) by { RunInv(responses, workers, block, run); }
    if st.ok == |responses| {
      forall k | 0 <= k < |responses| ensures Exact(responses[k], block) {
        OkMeansExact(responses, block, st, k);
      }
    }
    if forall r <- responses :: Exact(r, block) {
      ExactMeansOk(responses, block, st);
      SumBounds(Sizes(), responses, block, block);
    }
  }

  // ----- the tallies, from the responses alone -----

  function Failures(): Response -> int { (r: Response) => One(!r.success) }

  function OtherCodes(): Response -> int { (r: Response) => One(r.success && r.code != 206) }

  function OtherSizes(block: nat): Response -> int {
    (r: Response) => One(r.success && r.code == 206 && r.size != block)
  }

  function Blocks(block: nat): Response -> int { (r: Response) => One(r.success && r.code == 206 && r.size == block) }

  function Bytes(): Response -> int { (r: Response) => if r.success then r.size else 0 }

  lemma {:induction false} ClassSums(requests: seq<Request>, responses: seq<Response>, block: nat)
    requires |requests| == |responses|
    requires forall k :: 0 <= k < |requests| ==> requests[k].progress.Finished? && requests[k].response == responses[k]
    ensures Sum(InClass(block, Failed), requests) == Sum(Failures(), responses)
    ensures Sum(InClass(block, BadStatus), requests) == Sum(OtherCodes(), responses)
    ensures Sum(InClass(block, ShortBody), requests) == Sum(OtherSizes(block), responses)
    ensures Sum(InClass(block, Ok), requests) == Sum(Blocks(block), responses)
    ensures Sum(InBytes(), requests) == Sum(Bytes(), responses)
  {
    if requests != [] {
      ClassSums(requests[1..], responses[1..], block);
    }
  }

  /**
   What the main thread prints once it sees the full count, whatever the interleaving: how many
   requests failed, how many answered with another code than 206, how many with another size
   than a block, how many exactly, and the bytes of all that did not fail.
   */
  lemma TalliesExact(responses: seq<Response>, workers: nat, block: nat, run: seq<State>, st: State)
    requires Run(responses, workers, block, run) && st in run && st.finished >= |responses|
    ensures st.failed == Sum(Failures(), responses) && st.badStatus == Sum(OtherCodes(), responses)
    ensures st.shortBody == Sum(OtherSizes(block), responses) && st.ok == Sum(Blocks(block), responses)
    ensures Sum(Id(), st.bytes) == Sum(Bytes(), responses)
  {
    RunInv(responses, workers, block, run);
    SumBounds(InFinished(), st.requests, 0, 1);
    AllFinished(st.requests);
    ClassSums(st.requests, responses, block);
  }
}
