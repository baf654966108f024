/**
 What the socket shim reports of a whole trace, from the events alone: which descriptors are
 watched, which sends and receives count, and the window from the first send to the last
 receive.
 */
module NetPhaseTrace {
  import opened NetPhase
  import opened NetPhaseLaws

  /** A connect to an Internet address, on a descriptor of the table. */
  predicate Opens(n: nat, ev: Event, fd: int) { ev.Connect? && ev.fd == fd && 0 <= fd < n && ev.port >= 0 }

  predicate Resets(n: nat, ev: Event, fd: int) { ev == Close(fd) || Opens(n, ev, fd) }

  /** No close of and no connect on the descriptor from event `i` to before event `k`. */
  predicate Undisturbed(n: nat, evs: seq<Event>, i: nat, k: nat, fd: int)
    requires k <= |evs|
  {
    forall j :: i <= j < k ==> !Resets(n, evs[j], fd)
  }

  /** Before event `k` there is a connect on the descriptor, and no close since. */
  predicate IsOpen(n: nat, evs: seq<Event>, k: nat, fd: int)
    requires k <= |evs|
  {
    exists o: nat :: o < k && Opens(n, evs[o], fd) && Undisturbed(n, evs, o + 1, k, fd)
  }

  /** Event `i` is a send on a connection. */
  predicate Asks(n: nat, evs: seq<Event>, i: nat)
    requires i < |evs|
  {
    evs[i].Send? && IsOpen(n, evs, i, evs[i].fd)
  }

  /** Before event `k` something was sent on the connection. */
  predicate Awaits(n: nat, evs: seq<Event>, k: nat, fd: int)
    requires k <= |evs|
  {
    exists s: nat :: s < k && evs[s].fd == fd && Asks(n, evs, s) && Undisturbed(n, evs, s + 1, k, fd)
  }

  /** Event `i` receives something on a connection that was sent on. */
  predicate Accepts(n: nat, evs: seq<Event>, i: nat)
    requires i < |evs|
  {
    evs[i].Recv? && evs[i].n > 0 && Awaits(n, evs, i, evs[i].fd)
  }

  // ----- one more event -----

  lemma OpenNext(n: nat, evs: seq<Event>, k: nat, fd: int)
    requires k < |evs|
    ensures IsOpen(n, evs, k + 1, fd) <==> Opens(n, evs[k], fd) || (IsOpen(n, evs, k, fd) && evs[k] != Close(fd))
  {
    if IsOpen(n, evs, k + 1, fd) && !Opens(n, evs[k], fd) {
      var o: nat :| o < k + 1 && Opens(n, evs[o], fd) && Undisturbed(n, evs, o + 1, k + 1, fd);
      assert o < k && Undisturbed(n, evs, o + 1, k, fd) && !Resets(n, evs[k], fd);
    }
    if Opens(n, evs[k], fd) {
      assert Undisturbed(n, evs, k + 1, k + 1, fd);
    } else if IsOpen(n, evs, k, fd) && evs[k] != Close(fd) {
      var o: nat :| o < k && Opens(n, evs[o], fd) && Undisturbed(n, evs, o + 1, k, fd);
      assert Undisturbed(n, evs, o + 1, k + 1, fd);
    }
  }

  lemma AwaitsNext(n: nat, evs: seq<Event>, k: nat, fd: int)
    requires k < |evs|
    ensures Awaits(n, evs, k + 1, fd)
       <==> !Resets(n, evs[k], fd) && (Awaits(n, evs, k, fd) || (evs[k].fd == fd && Asks(n, evs, k)))
  {
    if Awaits(n, evs, k + 1, fd) {
      var s: nat :| s < k + 1 && evs[s].fd == fd && Asks(n, evs, s) && Undisturbed(n, evs, s + 1, k + 1, fd);
      if s < k {
        assert Undisturbed(n, evs, s + 1, k, fd) && !Resets(n, evs[k], fd);
      }
    }
    if evs[k].fd == fd && Asks(n, evs, k) {
      assert Undisturbed(n, evs, k + 1, k + 1, fd);
    } else if !Resets(n, evs[k], fd) && Awaits(n, evs, k, fd) {
      var s: nat :| s < k && evs[s].fd == fd && Asks(n, evs, s) && Undisturbed(n, evs, s + 1, k, fd);
      assert Undisturbed(n, evs, s + 1, k + 1, fd);
    }
  }

  /** What an event does to the descriptors' states. */
  lemma SlotNext(st: State, ev: Event, fd: nat)
    requires fd < |st.slots|
    ensures |Step(st, ev).slots| == |st.slots|
    ensures
      var s, s' := st.slots[fd], Step(st, ev).slots[fd];
      && (s'.sock <==> Opens(|st.slots|, ev, fd) || (s.sock && ev != Close(fd)))
      && (s'.sock ==> (s'.phase != Idle
            <==> !Resets(|st.slots|, ev, fd) && (s.phase != Idle || (ev.Send? && ev.fd == fd && s.sock))))
  {
  }

  // ----- what the slots remember -----

  /** Each slot knows whether its descriptor is connected, and whether it was sent on. */
  predicate SlotsKnow(n: nat, evs: seq<Event>, k: nat, slots: seq<Slot>)
    requires k <= |evs|
  {
    && |slots| == n
    && forall fd: nat :: fd < n ==>
         && (slots[fd].sock <==> IsOpen(n, evs, k, fd))
         && (slots[fd].sock ==> (slots[fd].phase != Idle <==> Awaits(n, evs, k, fd)))
  }

  lemma SlotsKnowNext(n: nat, evs: seq<Event>, k: nat, st: State)
    requires k < |evs| && SlotsKnow(n, evs, k, st.slots)
    ensures SlotsKnow(n, evs, k + 1, Step(st, evs[k]).slots)
  {
    forall fd: nat | fd < n
      ensures
        var s' := Step(st, evs[k]).slots[fd];
        && (s'.sock <==> IsOpen(n, evs, k + 1, fd))
        && (s'.sock ==> (s'.phase != Idle <==> Awaits(n, evs, k + 1, fd)))
    {
      SlotNext(st, evs[k], fd);
      OpenNext(n, evs, k, fd);
      AwaitsNext(n, evs, k, fd);
    }
    StepSize(st, evs[k]);
  }

  lemma StepSize(st: State, ev: Event)
    ensures |Step(st, ev).slots| == |st.slots|
  {
  }

  /** A descriptor out of the table is never connected. */
  lemma OutOfTable(n: nat, evs: seq<Event>, k: nat, fd: int)
    requires k <= |evs| && !(0 <= fd < n)
    ensures !IsOpen(n, evs, k, fd) && !Awaits(n, evs, k, fd)
  {
  }

  /** A descriptor that was sent on is connected. */
  lemma AwaitingIsOpen(n: nat, evs: seq<Event>, k: nat, fd: int)
    requires k <= |evs| && Awaits(n, evs, k, fd)
    ensures IsOpen(n, evs, k, fd)
  {
    var s: nat :| s < k && evs[s].fd == fd && Asks(n, evs, s) && Undisturbed(n, evs, s + 1, k, fd);
    var o: nat :| o < s && Opens(n, evs[o], fd) && Undisturbed(n, evs, o + 1, s, fd);
    assert Undisturbed(n, evs, o + 1, k, fd);
  }

  // ----- the stamps -----

  /** The time of the first send on a connection; a zero time is as if there were none. */
  predicate FirstSendIs(n: nat, evs: seq<Event>, k: nat, t: nat)
    requires k <= |evs|
  {
    if t == 0 then forall i: nat :: i < k && Asks(n, evs, i) ==> evs[i].t == 0
    else
      exists i: nat ::
        && i < k && Asks(n, evs, i) && evs[i].t == t
        && forall j: nat :: j < i && Asks(n, evs, j) ==> evs[j].t == 0
  }

  /** The largest time of a receive that counts, and zero without one. */
  predicate LastRecvIs(n: nat, evs: seq<Event>, k: nat, t: nat)
    requires k <= |evs|
  {
    && (forall i: nat :: i < k && Accepts(n, evs, i) ==> evs[i].t <= t)
    && (t == 0 || exists i: nat :: i < k && Accepts(n, evs, i) && evs[i].t == t)
  }

  function Connections(n: nat, evs: seq<Event>, k: nat): nat
    requires k <= |evs|
  {
    if k == 0 then 0 else Connections(n, evs, k - 1) + if Opens(n, evs[k - 1], evs[k - 1].fd) then 1 else 0
  }

  predicate StampsAre(n: nat, evs: seq<Event>, k: nat, st: State)
    requires k <= |evs|
  {
    FirstSendIs(n, evs, k, st.tFirstSend) && LastRecvIs(n, evs, k, st.tLastRecv) && st.conns == Connections(n, evs, k)
  }

  /** Which stamps an event moves. */
  lemma StampNext(st: State, ev: Event)
    ensures
      var st', n, fd := Step(st, ev), |st.slots|, ev.fd;
      var live := 0 <= fd < n && st.slots[fd].sock;
      && st'.tFirstSend == (if ev.Send? && live && st.tFirstSend == 0 then ev.t else st.tFirstSend)
      && st'.tLastRecv == (if ev.Recv? && live && ev.n > 0 && st.slots[fd].phase != Idle && ev.t > st.tLastRecv
                           then ev.t else st.tLastRecv)
      && st'.conns == st.conns + if Opens(n, ev, fd) then 1 else 0
  {
  }

  lemma FirstSendNext(n: nat, evs: seq<Event>, k: nat, t: nat, t': nat)
    requires k < |evs| && FirstSendIs(n, evs, k, t) && t' == if Asks(n, evs, k) && t == 0 then evs[k].t else t
    ensures FirstSendIs(n, evs, k + 1, t')
  {
  }

  lemma LastRecvNext(n: nat, evs: seq<Event>, k: nat, t: nat, t': nat)
    requires k < |evs| && LastRecvIs(n, evs, k, t)
    requires t' == if Accepts(n, evs, k) && evs[k].t > t then evs[k].t else t
    ensures LastRecvIs(n, evs, k + 1, t')
  {
  }

  lemma StampsNext(n: nat, evs: seq<Event>, k: nat, st: State)
    requires k < |evs| && SlotsKnow(n, evs, k, st.slots) && StampsAre(n, evs, k, st)
    ensures StampsAre(n, evs, k + 1, Step(st, evs[k]))
  {
    var ev, st' := evs[k], Step(st, evs[k]);
    StampNext(st, ev);
    if !(0 <= ev.fd < n) {
      OutOfTable(n, evs, k, ev.fd);
    } else if Awaits(n, evs, k, ev.fd) {
      AwaitingIsOpen(n, evs, k, ev.fd);
    }
    FirstSendNext(n, evs, k, st.tFirstSend, st'.tFirstSend);
    LastRecvNext(n, evs, k, st.tLastRecv, st'.tLastRecv);
  }

  lemma StepsMore(st: State, evs: seq<Event>, k: nat)
    requires k < |evs|
    ensures Steps(st, evs[..k + 1]) == Step(Steps(st, evs[..k]), evs[k])
  {
    StepsConcat(st, evs[..k], [evs[k]]);
    assert evs[..k + 1] == evs[..k] + [evs[k]] && [evs[k]][1..] == [];
    assert Steps(Steps(st, evs[..k]), [evs[k]]) == Step(Steps(st, evs[..k]), evs[k]);
  }

  /** After any events the stamps are those of the events, whatever their times. */
  lemma {:induction false} Stamps(n: nat, evs: seq<Event>, k: nat)
    requires k <= |evs|
    ensures SlotsKnow(n, evs, k, Steps(Fresh(n), evs[..k]).slots) && StampsAre(n, evs, k, Steps(Fresh(n), evs[..k]))
  {
    if k > 0 {
      Stamps(n, evs, k - 1);
      StepsMore(Fresh(n), evs, k - 1);
      SlotsKnowNext(n, evs, k - 1, Steps(Fresh(n), evs[..k - 1]));
      StampsNext(n, evs, k - 1, Steps(Fresh(n), evs[..k - 1]));
    }
  }

  // ----- the report -----

  predicate Timed(ev: Event) { ev.Send? || ev.Recv? }

  lemma {:induction false} TimesAscend(clock: nat, evs: seq<Event>, i: nat, j: nat)
    requires Monotone(clock, evs) && i <= j < |evs| && Timed(evs[i]) && Timed(evs[j])
    ensures clock <= evs[i].t <= evs[j].t
    decreases |evs|
  {
    var next := if Timed(evs[0]) then evs[0].t else clock;
    if i > 0 {
      TimesAscend(next, evs[1..], i - 1, j - 1);
    } else if j > 0 {
      TimesAscend(next, evs[1..], j - 1, j - 1);
    }
  }

  /** Event `j` is the first send on any connection. */
  predicate IsFirstSend(n: nat, evs: seq<Event>, j: nat) {
    j < |evs| && Asks(n, evs, j) && forall i: nat :: i < j ==> !Asks(n, evs, i)
  }

  /** Event `i` is the last receive that counts. */
  predicate IsLastReceive(n: nat, evs: seq<Event>, i: nat) {
    i < |evs| && Accepts(n, evs, i) && forall j: nat :: i < j < |evs| ==> !Accepts(n, evs, j)
  }

  lemma FirstStamp(n: nat, evs: seq<Event>, t: nat, j: nat)
    requires Monotone(1, evs) && FirstSendIs(n, evs, |evs|, t) && IsFirstSend(n, evs, j)
    ensures t == evs[j].t
  {
    TimesAscend(1, evs, j, j);
    var i: nat :| && i < |evs| && Asks(n, evs, i) && evs[i].t == t
                  && forall j': nat :: j' < i && Asks(n, evs, j') ==> evs[j'].t == 0;
    assert i == j;
  }

  lemma LastStamp(n: nat, evs: seq<Event>, t: nat, i: nat)
    requires Monotone(1, evs) && LastRecvIs(n, evs, |evs|, t) && IsLastReceive(n, evs, i)
    ensures t == evs[i].t
  {
    TimesAscend(1, evs, i, i);
    var j: nat :| j < |evs| && Accepts(n, evs, j) && evs[j].t == t;
    TimesAscend(1, evs, j, i);
  }

  /** With a clock above zero the stamps are the times of the first send and of the last receive that counts. */
  lemma StampsAreEnds(n: nat, evs: seq<Event>)
    requires Monotone(1, evs)
    ensures
      var st := Steps(Fresh(n), evs);
      && (forall j: nat :: IsFirstSend(n, evs, j) ==> st.tFirstSend == evs[j].t)
      && (forall i: nat :: IsLastReceive(n, evs, i) ==> st.tLastRecv == evs[i].t)
      && ((forall j: nat :: j < |evs| ==> !Asks(n, evs, j)) ==> st.tFirstSend == 0)
      && ((forall i: nat :: i < |evs| ==> !Accepts(n, evs, i)) ==> st.tLastRecv == 0)
      && st.conns == Connections(n, evs, |evs|)
  {
    Stamps(n, evs, |evs|);
    assert evs[..|evs|] == evs;
    var st := Steps(Fresh(n), evs);
    forall j: nat | IsFirstSend(n, evs, j) ensures st.tFirstSend == evs[j].t {
      FirstStamp(n, evs, st.tFirstSend, j);
    }
    forall i: nat | IsLastReceive(n, evs, i) ensures st.tLastRecv == evs[i].t {
      LastStamp(n, evs, st.tLastRecv, i);
    }
  }

  /** What counts as received came after the first send. */
  lemma SentBefore(n: nat, evs: seq<Event>, i: nat) returns (j: nat)
    requires i < |evs| && Accepts(n, evs, i)
    ensures j < i && IsFirstSend(n, evs, j)
  {
    j :| j < i && evs[j].fd == evs[i].fd && Asks(n, evs, j) && Undisturbed(n, evs, j + 1, i, evs[i].fd);
    var k := 0;
    while !Asks(n, evs, k)
      invariant k <= j && forall i: nat :: i < k ==> !Asks(n, evs, i)
      decreases j - k
    {
      k := k + 1;
    }
    j := k;
  }

  /**
   The window reported at exit is the time from the first send on any connection to the last
   receive that counts, and zero where nothing was received.
   */
  lemma WindowReported(n: nat, evs: seq<Event>)
    requires Monotone(1, evs)
    ensures
      var window := Window(Steps(Fresh(n), evs));
      && ((forall i: nat :: i < |evs| ==> !Accepts(n, evs, i)) ==> window == 0)
      && forall i: nat, j: nat :: IsLastReceive(n, evs, i) && IsFirstSend(n, evs, j) ==>
           j < i && window == evs[i].t - evs[j].t
  {
    StampsAreEnds(n, evs);
    forall i: nat, j: nat | IsLastReceive(n, evs, i) && IsFirstSend(n, evs, j)
      ensures j < i && Window(Steps(Fresh(n), evs)) == evs[i].t - evs[j].t
    {
      var first := SentBefore(n, evs, i);
      assert first == j;
      TimesAscend(1, evs, j, i);
    }
  }

  // ----- the exit pass -----

  lemma {:induction false} NoConnections(n: nat, evs: seq<Event>, k: nat)
    requires k <= |evs|
    ensures Connections(n, evs, k) == 0 <==> forall i: nat :: i < k ==> !Opens(n, evs[i], evs[i].fd)
  {
    if k > 0 {
      NoConnections(n, evs, k - 1);
    }
  }

  lemma {:induction false} NothingToFlush(st: State, k: nat)
    requires k <= |st.slots| && forall i :: 0 <= i < |st.slots| ==> !st.slots[i].sock
    ensures Flushed(st, k) == st
  {
    if k > 0 {
      NothingToFlush(st, k - 1);
    }
  }

  /**
   A process leaves its report to others if and only if it never opened a connection, and then
   the exit pass it skips would have changed nothing.
   */
  lemma SkippedWhenIdle(n: nat, evs: seq<Event>)
    ensures
      var st := Steps(Fresh(n), evs);
      && |st.slots| == n
      && (st.conns == 0 <==> forall i: nat :: i < |evs| ==> !Opens(n, evs[i], evs[i].fd))
      && (st.conns == 0 ==> Flushed(st, n) == st)
  {
    Stamps(n, evs, |evs|);
    assert evs[..|evs|] == evs;
    NoConnections(n, evs, |evs|);
    var st := Steps(Fresh(n), evs);
    if st.conns == 0 {
      assert forall fd: nat :: fd < n ==> !IsOpen(n, evs, |evs|, fd);
      NothingToFlush(st, n);
    }
  }

  lemma {:induction false} CountsAlike(st: State, h: History, evs: seq<Event>)
    requires HistoryOk(h) && Monotone(h.clock, evs) && |st.slots| == |h.conns|
    ensures Steps(st, evs).conns - st.conns == Notes(h, evs).count - h.count
    decreases |evs|
  {
    if evs != [] {
      NoteOk(h, evs[0]);
      StepSize(st, evs[0]);
      StampNext(st, evs[0]);
      CountsAlike(Step(st, evs[0]), Note(h, evs[0]), evs[1..]);
    }
  }

  /** The connections reported are those of the history, and those of the events. */
  lemma ConnectionsCounted(n: nat, evs: seq<Event>)
    requires Monotone(0, evs)
    ensures Steps(Fresh(n), evs).conns == Notes(Start(n), evs).count == Connections(n, evs, |evs|)
  {
    CountsAlike(Fresh(n), Start(n), evs);
    Stamps(n, evs, |evs|);
    assert evs[..|evs|] == evs;
  }
}
