/**
 The first-send stamp of the socket shim under concurrent hooks. A hook reads the clock and
 then, in a step of its own, swaps its time in if the stamp is still zero; between the two
 other hooks may run. The clock never goes back.
 */
module FirstSend {
  import opened Options

  /** The times the thread's coming sends will read, and the one read but not yet swapped. */
  datatype Thread = Thread(left: seq<nat>, read: Option<nat>)

  datatype State = State(clock: nat, stamp: nat, threads: seq<Thread>)

  datatype Move = Read(i: nat) | Swap(i: nat)

  predicate Enabled(st: State, m: Move) {
    && m.i < |st.threads|
    && var th := st.threads[m.i];
       match m
       case Read(_) => th.read.None? && th.left != [] && st.clock <= th.left[0]
       case Swap(_) => th.read.Some?
  }

  function Step(st: State, m: Move): State
    requires Enabled(st, m)
  {
    var th := st.threads[m.i];
    match m
    case Read(i) => State(th.left[0], st.stamp, st.threads[i := Thread(th.left[1..], Some(th.left[0]))])
    case Swap(i) =>
      State(st.clock, if st.stamp == 0 then th.read.value else st.stamp, st.threads[i := Thread(th.left, None)])
  }

  ghost predicate Next(st: State, st': State) {
    exists m :: Moves(st, m, st')
  }

  ghost predicate Moves(st: State, m: Move, st': State) {
    Enabled(st, m) && st' == Step(st, m)
  }

  /** `n` steps of some threads lead from one state to the other. */
  ghost predicate Reaches(n: nat, a: State, b: State) {
    if n == 0 then a == b else exists m :: Next(a, m) && Reaches(n - 1, m, b)
  }

  predicate Done(st: State) { forall th <- st.threads :: th == Thread([], None) }

  // ----- the times of a run, known beforehand -----

  predicate Ascending(times: seq<nat>) {
    forall j, k :: 0 <= j <= k < |times| ==> times[j] <= times[k]
  }

  /** What each thread's sends will read, in its own order. */
  predicate Script(script: seq<seq<nat>>) {
    && (forall i :: 0 <= i < |script| ==> Ascending(script[i]) && forall t <- script[i] :: t > 0)
    && exists i :: 0 <= i < |script| && script[i] != []
  }

  function Init(script: seq<seq<nat>>): State {
    State(0, 0, seq(|script|, i requires 0 <= i < |script| => Thread(script[i], None)))
  }

  predicate IsLeast(script: seq<seq<nat>>, t: nat) {
    forall i :: 0 <= i < |script| && script[i] != [] ==> t <= script[i][0]
  }

  /**
   The thread's first send can be the first to swap: by the time it reads the clock no other
   thread needs to have reached its second send, and so finished its first.
   */
  predicate CanWin(script: seq<seq<nat>>, i: nat) {
    && i < |script| && script[i] != []
    && forall j :: 0 <= j < |script| && j != i && |script[j]| >= 2 ==> script[i][0] <= script[j][1]
  }

  // ----- whoever wins could -----

  /** The thread has gone through its script up to some send. */
  predicate Partway(times: seq<nat>, th: Thread) {
    && |th.left| <= |times| && th.left == times[|times| - |th.left|..]
    && (th.read.Some? ==> |th.left| < |times| && th.read.value == times[|times| - |th.left| - 1])
  }

  function Taken(times: seq<nat>, th: Thread): int { |times| - |th.left| }

  /** Thread `w` swapped first, at its time or later. */
  predicate Won(script: seq<seq<nat>>, st: State, w: nat)
    requires |st.threads| == |script|
  {
    && w < |script| && script[w] != [] && st.stamp == script[w][0] <= st.clock
    && forall j :: 0 <= j < |script| && j != w && Taken(script[j], st.threads[j]) >= 2 ==> script[w][0] <= script[j][1]
  }

  predicate Following(script: seq<seq<nat>>, st: State) {
    && |st.threads| == |script|
    && (forall j :: 0 <= j < |script| ==> Partway(script[j], st.threads[j]))
    && (forall j :: 0 <= j < |script| && st.threads[j].read.Some? ==> st.threads[j].read.value <= st.clock)
  }

  /** Nobody has swapped yet. */
  predicate Unclaimed(script: seq<seq<nat>>, st: State)
    requires |st.threads| == |script|
  {
    forall j :: 0 <= j < |script| ==> Taken(script[j], st.threads[j]) == if st.threads[j].read.Some? then 1 else 0
  }

  predicate Claimed(script: seq<seq<nat>>, st: State)
    requires |st.threads| == |script|
  {
    exists w :: 0 <= w < |script| && Won(script, st, w)
  }

  predicate Inv(script: seq<seq<nat>>, st: State) {
    Following(script, st) && if st.stamp == 0 then Unclaimed(script, st) else Claimed(script, st)
  }

  lemma InitInv(script: seq<seq<nat>>)
    ensures Inv(script, Init(script))
  {
  }

  lemma FollowsRead(script: seq<seq<nat>>, st: State, i: nat)
    requires Following(script, st) && Enabled(st, Read(i))
    ensures Following(script, Step(st, Read(i)))
    ensures Taken(script[i], Step(st, Read(i)).threads[i]) == Taken(script[i], st.threads[i]) + 1
    ensures script[i][Taken(script[i], st.threads[i])] == Step(st, Read(i)).clock
  {
    assert Partway(script[i], st.threads[i]);
  }

  lemma FollowsSwap(script: seq<seq<nat>>, st: State, i: nat)
    requires Following(script, st) && Enabled(st, Swap(i))
    ensures Following(script, Step(st, Swap(i)))
    ensures Taken(script[i], Step(st, Swap(i)).threads[i]) == Taken(script[i], st.threads[i])
  {
    assert Partway(script[i], st.threads[i]);
  }

  /** A later read does not take the victory back: the clock is past the winner's time. */
  lemma StillWon(script: seq<seq<nat>>, st: State, i: nat, w: nat)
    requires Following(script, st) && Enabled(st, Read(i)) && Won(script, st, w)
    ensures Won(script, Step(st, Read(i)), w)
  {
    FollowsRead(script, st, i);
  }

  lemma ReadInv(script: seq<seq<nat>>, st: State, i: nat)
    requires Inv(script, st) && Enabled(st, Read(i))
    ensures Inv(script, Step(st, Read(i)))
  {
    FollowsRead(script, st, i);
    if st.stamp != 0 {
      var w :| 0 <= w < |script| && Won(script, st, w);
      StillWon(script, st, i, w);
    }
  }

  lemma FirstSwap(script: seq<seq<nat>>, st: State, i: nat)
    requires Script(script) && Following(script, st) && Unclaimed(script, st) && Enabled(st, Swap(i)) && st.stamp == 0
    ensures Won(script, Step(st, Swap(i)), i) && Step(st, Swap(i)).stamp > 0
  {
    assert Partway(script[i], st.threads[i]);
    assert st.threads[i].read.value == script[i][0] && script[i][0] in script[i];
  }

  lemma LaterSwap(script: seq<seq<nat>>, st: State, i: nat, w: nat)
    requires |st.threads| == |script| && Enabled(st, Swap(i)) && Won(script, st, w) && st.stamp != 0
    ensures Won(script, Step(st, Swap(i)), w)
  {
  }

  lemma SwapInv(script: seq<seq<nat>>, st: State, i: nat)
    requires Script(script) && Inv(script, st) && Enabled(st, Swap(i))
    ensures Inv(script, Step(st, Swap(i)))
  {
    FollowsSwap(script, st, i);
    if st.stamp != 0 {
      var w :| 0 <= w < |script| && Won(script, st, w);
      LaterSwap(script, st, i, w);
    } else {
      FirstSwap(script, st, i);
    }
  }

  lemma NextInv(script: seq<seq<nat>>, a: State, b: State)
    requires Script(script) && Inv(script, a) && Next(a, b)
    ensures Inv(script, b)
  {
    var move :| Moves(a, move, b);
    match move
    case Read(i) => ReadInv(script, a, i);
    case Swap(i) => SwapInv(script, a, i);
  }

  lemma FirstStep(n: nat, a: State, b: State) returns (m: State)
    requires n > 0 && Reaches(n, a, b)
    ensures Next(a, m) && Reaches(n - 1, m, b)
  {
    m :| Next(a, m) && Reaches(n - 1, m, b);
  }

  lemma {:induction false} Preserved(p: State -> bool, n: nat, a: State, b: State)
    requires p(a) && Reaches(n, a, b)
    requires forall x, y :: p(x) && Next(x, y) ==> p(y)
    ensures p(b)
  {
    if n > 0 {
      var m := FirstStep(n, a, b);
      Preserved(p, n - 1, m, b);
    }
  }

  lemma InvAlong(script: seq<seq<nat>>, n: nat, a: State, b: State)
    requires Script(script) && Inv(script, a) && Reaches(n, a, b)
    ensures Inv(script, b)
  {
    var p := (st: State) => Inv(script, st);
    forall x, y | p(x) && Next(x, y) ensures p(y) {
      NextInv(script, x, y);
    }
    Preserved(p, n, a, b);
  }

  /** Once set, the stamp stays. */
  lemma {:induction false} StampStays(n: nat, a: State, b: State)
    requires Reaches(n, a, b) && a.stamp != 0
    ensures b.stamp == a.stamp
  {
    if n > 0 {
      var m :| Next(a, m) && Reaches(n - 1, m, b);
      StampStays(n - 1, m, b);
    }
  }

  lemma AllTaken(script: seq<seq<nat>>, st: State, j: nat)
    requires Following(script, st) && Done(st) && j < |script|
    ensures Taken(script[j], st.threads[j]) == |script[j]| && st.threads[j].read.None?
  {
    assert st.threads[j] in st.threads;
  }

  lemma WonCanWin(script: seq<seq<nat>>, st: State, w: nat)
    requires Following(script, st) && Done(st) && Won(script, st, w)
    ensures CanWin(script, w)
  {
    forall j | 0 <= j < |script| && j != w && |script[j]| >= 2 ensures script[w][0] <= script[j][1] {
      AllTaken(script, st, j);
    }
  }

  lemma DoneIsClaimed(script: seq<seq<nat>>, st: State)
    requires Script(script) && Inv(script, st) && Done(st)
    ensures Claimed(script, st)
  {
    var i :| 0 <= i < |script| && script[i] != [];
    AllTaken(script, st, i);
  }

  /** When all hooks are done, the stamp is the first time of a thread that could win. */
  lemma WinnerCanWin(script: seq<seq<nat>>, n: nat, end: State) returns (w: nat)
    requires Script(script) && Reaches(n, Init(script), end) && Done(end)
    ensures CanWin(script, w) && end.stamp == script[w][0]
  {
    InitInv(script);
    InvAlong(script, n, Init(script), end);
    DoneIsClaimed(script, end);
    w :| 0 <= w < |script| && Won(script, end, w);
    WonCanWin(script, end, w);
  }

  // ----- whoever can win does so in some run -----

  /** No thread is behind the clock. */
  predicate Ready(st: State) {
    forall j :: 0 <= j < |st.threads| ==>
      Ascending(st.threads[j].left) && (st.threads[j].left != [] ==> st.clock <= st.threads[j].left[0])
  }

  function Work(threads: seq<Thread>): nat {
    if threads == [] then 0
    else 2 * |threads[0].left| + (if threads[0].read.Some? then 1 else 0) + Work(threads[1..])
  }

  lemma {:induction false} WorkDrops(threads: seq<Thread>, i: nat, th: Thread)
    requires i < |threads|
    requires 2 * |th.left| + (if th.read.Some? then 1 else 0)
          < 2 * |threads[i].left| + (if threads[i].read.Some? then 1 else 0)
    ensures Work(threads[i := th]) < Work(threads)
  {
    if i > 0 {
      WorkDrops(threads[1..], i - 1, th);
      assert threads[i := th][1..] == threads[1..][i - 1 := th];
    } else {
      assert threads[i := th][1..] == threads[1..];
    }
  }

  lemma StepWork(st: State, m: Move)
    requires Enabled(st, m)
    ensures Work(Step(st, m).threads) < Work(st.threads)
  {
    WorkDrops(st.threads, m.i, Step(st, m).threads[m.i]);
  }

  /** The next time to be read. */
  predicate MinHead(st: State, k: nat) {
    && k < |st.threads| && st.threads[k].left != []
    && forall j :: 0 <= j < |st.threads| && st.threads[j].left != [] ==> st.threads[k].left[0] <= st.threads[j].left[0]
  }

  lemma SomeMinHead(st: State, i: nat) returns (k: nat)
    requires i < |st.threads| && st.threads[i].left != []
    ensures MinHead(st, k)
  {
    k := i;
    for j := 0 to |st.threads|
      invariant k < |st.threads| && st.threads[k].left != []
      invariant forall l :: 0 <= l < j && st.threads[l].left != [] ==> st.threads[k].left[0] <= st.threads[l].left[0]
    {
      if st.threads[j].left != [] && st.threads[j].left[0] < st.threads[k].left[0] {
        k := j;
      }
    }
  }

  lemma ReadReady(st: State, k: nat)
    requires Ready(st) && MinHead(st, k) && st.threads[k].read.None?
    ensures Enabled(st, Read(k)) && Ready(Step(st, Read(k)))
  {
    var left := st.threads[k].left;
    assert Ascending(left);
    assert Ascending(left[1..]);
  }

  lemma OneMore(st: State, m: Move, n: nat, end: State)
    requires Enabled(st, m) && Reaches(n, Step(st, m), end)
    ensures Reaches(n + 1, st, end)
  {
    assert Moves(st, m, Step(st, m));
    assert Next(st, Step(st, m));
  }

  /** Any run can be completed. */
  lemma {:induction false} Complete(st: State) returns (n: nat, end: State)
    requires Ready(st)
    ensures Reaches(n, st, end) && Done(end)
    decreases Work(st.threads)
  {
    if Done(st) {
      n, end := 0, st;
    } else {
      var m := SomeMove(st);
      n, end := Complete(Step(st, m));
      OneMore(st, m, n, end);
      n := n + 1;
    }
  }

  lemma SomeMove(st: State) returns (m: Move)
    requires Ready(st) && !Done(st)
    ensures Enabled(st, m) && Ready(Step(st, m)) && Work(Step(st, m).threads) < Work(st.threads)
  {
    if i :| 0 <= i < |st.threads| && st.threads[i].read.Some? {
      m := Swap(i);
    } else {
      var i :| 0 <= i < |st.threads| && st.threads[i].left != [];
      var k := SomeMinHead(st, i);
      ReadReady(st, k);
      m := Read(k);
    }
    StepWork(st, m);
  }

  /** Nobody has swapped, and thread `i` has not read yet. */
  predicate Before(script: seq<seq<nat>>, st: State, i: nat) {
    && Inv(script, st) && Ready(st) && st.stamp == 0
    && i < |script| && st.threads[i] == Thread(script[i], None)
  }

  /** Thread `i` can read and swap at once, and the rest can follow. */
  predicate CanFinish(st: State, i: nat, t: nat) {
    && Enabled(st, Read(i)) && Enabled(Step(st, Read(i)), Swap(i)) && t > 0
    && Step(Step(st, Read(i)), Swap(i)).stamp == t && Ready(Step(Step(st, Read(i)), Swap(i)))
  }

  lemma Finish(st: State, i: nat, t: nat) returns (n: nat, end: State)
    requires CanFinish(st, i, t)
    ensures Reaches(n, st, end) && Done(end) && end.stamp == t
  {
    var read := Step(st, Read(i));
    var swapped := Step(read, Swap(i));
    n, end := Complete(swapped);
    StampStays(n, swapped, end);
    OneMore(read, Swap(i), n, end);
    OneMore(st, Read(i), n + 1, end);
    n := n + 2;
  }

  ghost predicate CanWait(p: State -> bool, st: State) {
    exists k: nat :: Enabled(st, Read(k)) && p(Step(st, Read(k)))
  }

  /** Reading threads one by one as long as `p` holds ends where `f` does. */
  lemma {:induction false} Drive(p: State -> bool, f: State -> bool, st: State) returns (n: nat, x: State)
    requires p(st) && forall y :: p(y) ==> f(y) || CanWait(p, y)
    ensures Reaches(n, st, x) && f(x)
    decreases Work(st.threads)
  {
    if f(st) {
      n, x := 0, st;
    } else {
      assert CanWait(p, st);
      var next := Wait(p, st);
      n, x := Drive(p, f, next);
      ReachesConcat(1, st, next, n, x);
      n := n + 1;
    }
  }

  lemma Wait(p: State -> bool, st: State) returns (next: State)
    requires CanWait(p, st)
    ensures p(next) && Work(next.threads) < Work(st.threads) && Reaches(1, st, next)
  {
    var k: nat :| Enabled(st, Read(k)) && p(Step(st, Read(k)));
    StepWork(st, Read(k));
    next := Step(st, Read(k));
    assert Moves(st, Read(k), next) && Reaches(0, next, next);
    OneMore(st, Read(k), 0, next);
  }

  lemma {:induction false} ReachesConcat(n: nat, a: State, b: State, k: nat, c: State)
    requires Reaches(n, a, b) && Reaches(k, b, c)
    ensures Reaches(n + k, a, c)
  {
    if n > 0 {
      var m := FirstStep(n, a, b);
      ReachesConcat(n - 1, m, b, k, c);
    }
  }

  lemma SwappedIn(script: seq<seq<nat>>, st: State, i: nat)
    requires Script(script) && Before(script, st, i) && script[i] != [] && MinHead(st, i)
    ensures CanFinish(st, i, script[i][0])
  {
    ReadReady(st, i);
    assert script[i][0] in script[i];
  }

  /** A thread with an earlier first time reads, and the rest is as before. */
  lemma ReadBefore(script: seq<seq<nat>>, st: State, i: nat, k: nat)
    requires Before(script, st, i) && MinHead(st, k) && k != i && st.threads[k].read.None?
    ensures Enabled(st, Read(k)) && Before(script, Step(st, Read(k)), i)
  {
    ReadReady(st, k);
    ReadInv(script, st, k);
  }

  /** Whoever still has a time before the winner's has not read its first. */
  lemma FirstUnread(script: seq<seq<nat>>, st: State, i: nat, k: nat)
    requires CanWin(script, i) && Before(script, st, i)
    requires k < |script| && st.threads[k].left != [] && st.threads[k].left[0] < script[i][0]
    ensures k != i && st.threads[k].read.None?
  {
    assert Partway(script[k], st.threads[k]);
    assert k != i;
  }

  lemma MinIs(script: seq<seq<nat>>, st: State, i: nat, k: nat)
    requires Before(script, st, i) && MinHead(st, k) && script[i] != [] && st.threads[k].left[0] >= script[i][0]
    ensures MinHead(st, i)
  {
  }

  lemma BeforeGoesOn(script: seq<seq<nat>>, st: State, i: nat) returns (k: nat)
    requires Script(script) && CanWin(script, i) && Before(script, st, i)
    ensures CanFinish(st, i, script[i][0]) || (Enabled(st, Read(k)) && Before(script, Step(st, Read(k)), i))
  {
    k := SomeMinHead(st, i);
    if st.threads[k].left[0] < script[i][0] {
      FirstUnread(script, st, i, k);
      ReadBefore(script, st, i, k);
    } else {
      MinIs(script, st, i, k);
      SwappedIn(script, st, i);
    }
  }

  /** The threads whose first time is earlier read first and wait. */
  lemma LetRead(script: seq<seq<nat>>, i: nat) returns (n: nat, x: State)
    requires Script(script) && CanWin(script, i) && Before(script, Init(script), i)
    ensures Reaches(n, Init(script), x) && CanFinish(x, i, script[i][0])
  {
    var p := (st: State) => Before(script, st, i);
    var f := (st: State) => CanFinish(st, i, script[i][0]);
    forall y | p(y) ensures f(y) || CanWait(p, y) {
      var k := BeforeGoesOn(script, y, i);
      assert Enabled(y, Read(k)) && p(Step(y, Read(k))) ==> CanWait(p, y);
    }
    n, x := Drive(p, f, Init(script));
  }

  lemma FinishFrom(a: State, n: nat, x: State, i: nat, t: nat) returns (k: nat, end: State)
    requires Reaches(n, a, x) && CanFinish(x, i, t)
    ensures Reaches(k, a, end) && Done(end) && end.stamp == t
  {
    var more: nat;
    more, end := Finish(x, i, t);
    ReachesConcat(n, a, x, more, end);
    k := n + more;
  }

  lemma Win(script: seq<seq<nat>>, i: nat) returns (n: nat, end: State)
    requires Script(script) && CanWin(script, i) && Before(script, Init(script), i)
    ensures Reaches(n, Init(script), end) && Done(end) && end.stamp == script[i][0]
  {
    var k, x := LetRead(script, i);
    n, end := FinishFrom(Init(script), k, x, i, script[i][0]);
  }

  lemma InitReady(script: seq<seq<nat>>)
    requires Script(script)
    ensures Ready(Init(script))
  {
  }

  ghost predicate AlwaysEarliest(script: seq<seq<nat>>) {
    forall n, end :: Reaches(n, Init(script), end) && Done(end) ==> IsLeast(script, end.stamp)
  }

  /**
   Every interleaving ends with the earliest send in the stamp if and only if each thread
   that can win has the least time: a later first send wins unless some other thread must
   have finished its own first send before.
   */
  lemma EarliestIff(script: seq<seq<nat>>)
    requires Script(script)
    ensures AlwaysEarliest(script)
       <==> forall i :: 0 <= i < |script| && CanWin(script, i) ==> IsLeast(script, script[i][0])
  {
    if AlwaysEarliest(script) {
      forall i | 0 <= i < |script| && CanWin(script, i) ensures IsLeast(script, script[i][0]) {
        InitInv(script);
        InitReady(script);
        var n, end := Win(script, i);
      }
    }
    if forall i :: 0 <= i < |script| && CanWin(script, i) ==> IsLeast(script, script[i][0]) {
      forall n, end | Reaches(n, Init(script), end) && Done(end) ensures IsLeast(script, end.stamp) {
        var w := WinnerCanWin(script, n, end);
      }
    }
  }

  /** Two threads that each send once: the one that reads the clock later may be first to swap. */
  lemma LaterMayWin()
    ensures Script([[1], [2]]) && !AlwaysEarliest([[1], [2]])
  {
    var script := [[1], [2]];
    assert Script(script) by {
      assert script[0] != [];
    }
    assert CanWin(script, 1) && !IsLeast(script, script[1][0]);
    EarliestIff(script);
  }
}
