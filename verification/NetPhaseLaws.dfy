/**
 The accounting laws of the socket shim. A reference history is kept from the events alone:
 each connection's sends and receives, and a log of finished exchanges. The shim's counters
 are shown to be the tally of that log, and the log to tile the connections' lives.
 */
module NetPhaseLaws {
  import opened Options
  import opened Sums
  import opened NetPhase
  import opened Histograms

  datatype Event =
    | Send(fd: int, t: nat)
    | Recv(fd: int, t: nat, n: int)
    | Connect(fd: int, port: int)
    | Close(fd: int)

  /** What the shim does on an event. */
  function Step(st: State, ev: Event): State {
    match ev
    case Send(fd, t) => Sending(st, fd, t)
    case Recv(fd, t, n) => Received(st, fd, t, n)
    case Connect(fd, port) => Connecting(st, fd, port)
    case Close(fd) => Closed(st, fd)
  }

  // ----- the reference history -----

  datatype Exchange = Exchange(conn: nat, handshake: bool, ttfb: nat, body: nat, bytes: nat, gap: Option<nat>)

  /**
   A tracked connection: its number, its first and latest send, what came back since the
   latest, and all it ever received.
   */
  datatype Conn = Conn(id: nat, tls: bool, done: nat, first: Option<nat>, lastSend: nat, skipped: nat,
                       recvs: seq<nat>, got: nat, total: nat) {
    predicate Ok(clock: nat) {
      && (first.Some? ==> first.value <= lastSend <= clock)
      && (first.None? ==> recvs == [] && lastSend == skipped == 0)
      && (recvs == [] ==> got == 0)
      && (recvs != [] ==> lastSend <= recvs[0] <= recvs[|recvs| - 1] <= clock)
    }

    /** First send to latest send: what has been accounted while the connection lives. */
    function Span(): int { if first.Some? then lastSend - first.value else 0 }
  }

  /** A connection that is over: first send to last accounted instant, and what it received and lost. */
  datatype Life = Life(id: nat, span: int, skipped: nat, total: nat, lost: nat)

  /** Connections are numbered as they are opened. */
  datatype History = History(conns: seq<Option<Conn>>, log: seq<Exchange>, clock: nat,
                             ended: seq<Life>, count: nat, accepted: int, lost: int)

  predicate HistoryOk(h: History) {
    forall c <- h.conns :: c.Some? ==> c.value.Ok(h.clock)
  }

  predicate Tracked(h: History, fd: int) { 0 <= fd < |h.conns| && h.conns[fd].Some? }

  /** The clock is monotone. */
  predicate InTime(h: History, ev: Event) {
    (ev.Send? || ev.Recv?) ==> h.clock <= ev.t
  }

  function Finished(c: Conn, gap: Option<nat>): Exchange
    requires c.recvs != [] && c.lastSend <= c.recvs[0] <= c.recvs[|c.recvs| - 1]
  {
    Exchange(c.id, c.tls && c.done % TWO_32 == 0, c.recvs[0] - c.lastSend, c.recvs[|c.recvs| - 1] - c.recvs[0],
             c.got, gap)
  }

  /** The exchange a send or close ends, if anything was received. */
  function Ended(c: Conn, gap: Option<nat>): seq<Exchange>
    requires c.recvs != [] ==> c.lastSend <= c.recvs[0] <= c.recvs[|c.recvs| - 1]
  {
    if c.recvs == [] then [] else [Finished(c, gap)]
  }

  function GapAt(c: Conn, t: nat): Option<nat>
    requires c.Ok(t)
  {
    if c.recvs == [] then None else Some(t - c.recvs[|c.recvs| - 1])
  }

  /** A connection after a send at `t`. */
  function AfterSend(c: Conn, t: nat): Conn
    requires c.Ok(t)
  {
    if c.recvs != [] then c.(done := c.done + 1, lastSend := t, recvs := [], got := 0)
    else if c.first.Some? then c.(lastSend := t, skipped := c.skipped + (t - c.lastSend))
    else c.(first := Some(t), lastSend := t)
  }

  /** First send to last accounted instant of a connection that is closed now. */
  function FinalSpan(c: Conn): int
    requires c.recvs != [] ==> c.first.Some?
  {
    if c.recvs == [] then c.Span() else c.recvs[|c.recvs| - 1] - c.first.value
  }

  function Note(h: History, ev: Event): History
    requires HistoryOk(h) && InTime(h, ev)
  {
    match ev
    case Send(fd, t) => NoteSend(h, fd, t)
    case Recv(fd, t, n) =>
      if !Tracked(h, fd) || n <= 0 || h.conns[fd].value.first.None? then h.(clock := t)
      else
        var c := h.conns[fd].value;
        h.(conns := h.conns[fd := Some(c.(recvs := c.recvs + [t], got := c.got + n, total := c.total + n))],
           accepted := h.accepted + n, clock := t)
    case Connect(fd, port) =>
      if fd < 0 || fd >= |h.conns| || port < 0 then h
      else
        var h' := h.(conns := h.conns[fd := Some(NewConn(h.count, port == 443))], count := h.count + 1);
        if h.conns[fd].None? then h'
        else
          var c := h.conns[fd].value;
          h'.(ended := h.ended + [Life(c.id, c.Span(), c.skipped, c.total, c.got)], lost := h.lost + c.got)
    case Close(fd) => NoteClose(h, fd)
  }

  function NewConn(id: nat, tls: bool): Conn { Conn(id, tls, 0, None, 0, 0, [], 0, 0) }

  lemma ConnIsOk(h: History, fd: nat, t: nat)
    requires HistoryOk(h) && Tracked(h, fd) && h.clock <= t
    ensures h.conns[fd].value.Ok(t)
  {
    assert h.conns[fd] in h.conns;
  }

  function NoteSend(h: History, fd: int, t: nat): History
    requires HistoryOk(h) && h.clock <= t
  {
    if !Tracked(h, fd) then h.(clock := t)
    else
      ConnIsOk(h, fd, t);
      var c := h.conns[fd].value;
      h.(conns := h.conns[fd := Some(AfterSend(c, t))], log := h.log + Ended(c, GapAt(c, t)), clock := t)
  }

  function NoteClose(h: History, fd: int): History
    requires HistoryOk(h)
  {
    if !Tracked(h, fd) then h
    else
      ConnIsOk(h, fd, h.clock);
      var c := h.conns[fd].value;
      h.(conns := h.conns[fd := None], log := h.log + Ended(c, None),
         ended := h.ended + [Life(c.id, FinalSpan(c), c.skipped, c.total, 0)])
  }

  lemma NoteOk(h: History, ev: Event)
    requires HistoryOk(h) && InTime(h, ev)
    ensures HistoryOk(Note(h, ev)) && |Note(h, ev).conns| == |h.conns| && h.clock <= Note(h, ev).clock
  {
    var h' := Note(h, ev);
    forall c | c in h'.conns && c.Some? ensures c.value.Ok(h'.clock) {
      assert c in h.conns || c == h'.conns[ev.fd];
      if Tracked(h, ev.fd) {
        assert h.conns[ev.fd] in h.conns;
      }
    }
  }

  // ----- the shim's counters are the tally of the log -----

  function Plus(a: Agg, x: Exchange): Agg {
    Agg(a.n + 1, a.ttfb + x.ttfb, a.body + x.body,
        if x.gap.Some? then a.gap + x.gap.value else a.gap, if x.gap.Some? then a.gapN + 1 else a.gapN,
        a.bytes + x.bytes, Hit(a.hTtfb, x.ttfb), Hit(a.hBody, x.body))
  }

  /** The handshake counters take the handshakes, the request counters the rest. */
  function Added(a: Agg, x: Exchange, handshake: bool): Agg {
    if x.handshake == handshake then Plus(a, x) else a
  }

  function Tally(log: seq<Exchange>, handshake: bool): Agg {
    if log == [] then ZeroAgg()
    else
      Added(Tally(log[..|log| - 1], handshake), log[|log| - 1], handshake)
  }

  predicate SlotMatches(s: Slot, oc: Option<Conn>) {
    match oc
    case None => !s.sock
    case Some(c) =>
      && s.sock && s.tls == c.tls && s.exchanges == c.done % TWO_32 && s.bytes == c.got
      && s.phase == (if c.recvs != [] then Receiving else if c.first.Some? then Sent else Idle)
      && (s.phase != Idle ==> s.tSend == c.lastSend)
      && (s.phase == Receiving ==> s.tFirst == c.recvs[0] && s.tLast == c.recvs[|c.recvs| - 1])
  }

  predicate Matches(st: State, h: History) {
    && HistoryOk(h)
    && |st.slots| == |h.conns|
    && (forall i :: 0 <= i < |st.slots| ==> SlotMatches(st.slots[i], h.conns[i]))
    && st.req == Tally(h.log, false) && st.hs == Tally(h.log, true)
  }

  function AddedAll(a: Agg, xs: seq<Exchange>, handshake: bool): Agg {
    if xs == [] then a else Added(a, xs[0], handshake)
  }

  lemma TallyMore(log: seq<Exchange>, xs: seq<Exchange>, handshake: bool)
    requires |xs| <= 1
    ensures Tally(log + xs, handshake) == AddedAll(Tally(log, handshake), xs, handshake)
  {
    if xs == [] {
      assert log + xs == log;
    } else {
      assert (log + xs)[..|log|] == log;
    }
  }

  /** Counting a slot's exchange adds its record; no subtraction underflows. */
  lemma CountedIsPlus(a: Agg, s: Slot, c: Conn, clock: nat, tNext: nat, hasNext: bool)
    requires SlotMatches(s, Some(c)) && c.Ok(clock) && c.recvs != [] && (hasNext ==> clock <= tNext)
    ensures
      var x := Finished(c, if hasNext then Some(tNext - c.recvs[|c.recvs| - 1]) else None);
      Counted(a, s, tNext, hasNext) == Plus(a, x) && Handshake(s) == x.handshake
    ensures s.tSend <= s.tFirst <= s.tLast && (hasNext ==> s.tLast <= tNext)
  {
  }

  lemma WrapStep(n: nat)
    ensures (n % TWO_32 + 1) % TWO_32 == (n + 1) % TWO_32
  {
  }

  /** The slot after its exchange, if any, was closed. */
  function Rest(s: Slot, c: Conn): Slot {
    if c.recvs == [] then s else s.(exchanges := (c.done + 1) % TWO_32, phase := Idle, bytes := 0)
  }

  function NextGap(c: Conn, tNext: nat, hasNext: bool): Option<nat>
    requires hasNext ==> c.Ok(tNext)
  {
    if hasNext then GapAt(c, tNext) else None
  }

  /** Closing an exchange adds exactly its record to the counters. */
  lemma ClosingAdds(st: State, clock: nat, fd: nat, c: Conn, tNext: nat, hasNext: bool)
    requires fd < |st.slots| && SlotMatches(st.slots[fd], Some(c)) && c.Ok(clock)
    requires hasNext ==> c.Ok(tNext) && clock <= tNext
    ensures
      var xs := Ended(c, NextGap(c, tNext, hasNext));
      Closing(st, fd, tNext, hasNext)
      == st.(slots := st.slots[fd := Rest(st.slots[fd], c)],
             req := AddedAll(st.req, xs, false), hs := AddedAll(st.hs, xs, true))
  {
    var s := st.slots[fd];
    if c.recvs != [] {
      CountedIsPlus(if Handshake(s) then st.hs else st.req, s, c, clock, tNext, hasNext);
      WrapStep(c.done);
    } else {
      assert st.slots[fd := s] == st.slots;
    }
  }

  /** Only one descriptor's slot and connection change, and they change alike. */
  lemma OneDescriptor(st: State, h: History, st': State, h': History, fd: nat)
    requires Matches(st, h) && HistoryOk(h') && fd < |st.slots| == |st'.slots| == |h'.conns|
    requires st'.slots == st.slots[fd := st'.slots[fd]] && h'.conns == h.conns[fd := h'.conns[fd]]
    requires SlotMatches(st'.slots[fd], h'.conns[fd])
    requires st'.req == Tally(h'.log, false) && st'.hs == Tally(h'.log, true)
    ensures Matches(st', h')
  {
    forall i | 0 <= i < |st'.slots| ensures SlotMatches(st'.slots[i], h'.conns[i]) {
      assert i != fd ==> SlotMatches(st.slots[i], h.conns[i]);
    }
  }

  lemma UpdateTwice<T>(s: seq<T>, i: nat, a: T, b: T)
    requires i < |s|
    ensures s[i := a][i := b] == s[i := b]
  {
  }

  /** The slot a send leaves matches the connection a send leaves. */
  lemma SentSlot(s: Slot, c: Conn, t: nat)
    requires SlotMatches(s, Some(c)) && c.Ok(t)
    ensures SlotMatches(Rest(s, c).(tSend := t, phase := Sent), Some(AfterSend(c, t)))
  {
    WrapStep(c.done);
  }

  lemma SendMatches(st: State, h: History, fd: nat, t: nat)
    requires Matches(st, h) && Tracked(h, fd) && h.clock <= t
    ensures Matches(Sending(st, fd, t), NoteSend(h, fd, t))
  {
    NoteOk(h, Send(fd, t));
    ConnIsOk(h, fd, h.clock);
    ConnIsOk(h, fd, t);
    var c, s := h.conns[fd].value, st.slots[fd];
    assert SlotMatches(s, h.conns[fd]);
    ClosingAdds(st, h.clock, fd, c, t, true);
    UpdateTwice(st.slots, fd, Rest(s, c), Rest(s, c).(tSend := t, phase := Sent));
    SentSlot(s, c, t);
    TallyMore(h.log, Ended(c, GapAt(c, t)), false);
    TallyMore(h.log, Ended(c, GapAt(c, t)), true);
    OneDescriptor(st, h, Sending(st, fd, t), NoteSend(h, fd, t), fd);
  }

  lemma CloseMatches(st: State, h: History, fd: nat)
    requires Matches(st, h) && Tracked(h, fd)
    ensures Matches(Closed(st, fd), NoteClose(h, fd))
  {
    NoteOk(h, Close(fd));
    ConnIsOk(h, fd, h.clock);
    var c, s := h.conns[fd].value, st.slots[fd];
    assert SlotMatches(s, h.conns[fd]);
    ClosingAdds(st, h.clock, fd, c, 0, false);
    UpdateTwice(st.slots, fd, Rest(s, c), Rest(s, c).(sock := false));
    TallyMore(h.log, Ended(c, None), false);
    TallyMore(h.log, Ended(c, None), true);
    OneDescriptor(st, h, Closed(st, fd), NoteClose(h, fd), fd);
  }

  lemma RecvMatches(st: State, h: History, fd: nat, t: nat, n: int)
    requires Matches(st, h) && Tracked(h, fd) && h.clock <= t
    ensures Matches(Received(st, fd, t, n), Note(h, Recv(fd, t, n)))
  {
    NoteOk(h, Recv(fd, t, n));
    assert h.conns[fd] in h.conns && SlotMatches(st.slots[fd], h.conns[fd]);
    OneDescriptor(st, h, Received(st, fd, t, n), Note(h, Recv(fd, t, n)), fd);
  }

  lemma ConnectMatches(st: State, h: History, fd: int, port: int)
    requires Matches(st, h)
    ensures Matches(Connecting(st, fd, port), Note(h, Connect(fd, port)))
  {
    NoteOk(h, Connect(fd, port));
    if 0 <= fd < |st.slots| && port >= 0 {
      OneDescriptor(st, h, Connecting(st, fd, port), Note(h, Connect(fd, port)), fd);
    }
  }

  lemma StepMatches(st: State, h: History, ev: Event)
    requires Matches(st, h) && InTime(h, ev)
    ensures Matches(Step(st, ev), Note(h, ev))
  {
    if ev.Connect? {
      ConnectMatches(st, h, ev.fd, ev.port);
    } else if Tracked(h, ev.fd) {
      match ev
      case Send(fd, t) => SendMatches(st, h, fd, t);
      case Recv(fd, t, n) => RecvMatches(st, h, fd, t, n);
      case Close(fd) => CloseMatches(st, h, fd);
    } else {
      NoteOk(h, ev);
      if 0 <= ev.fd < |st.slots| {
        assert SlotMatches(st.slots[ev.fd], h.conns[ev.fd]);
      }
    }
  }

  // ----- the log tiles the connections' lives -----

  function Times(): Exchange -> int {
    (x: Exchange) => x.ttfb + x.body + if x.gap.Some? then x.gap.value else 0
  }

  function LogBytes(): Exchange -> int { (x: Exchange) => x.bytes }

  function Spans(): Option<Conn> -> int { (c: Option<Conn>) => if c.Some? then c.value.Span() else 0 }

  function Skips(): Option<Conn> -> int { (c: Option<Conn>) => if c.Some? then c.value.skipped else 0 }

  function Gots(): Option<Conn> -> int { (c: Option<Conn>) => if c.Some? then c.value.got else 0 }

  function LifeSpan(): Life -> int { (e: Life) => e.span }

  function LifeSkip(): Life -> int { (e: Life) => e.skipped }

  function Span(h: History): int { Sum(Spans(), h.conns) + Sum(LifeSpan(), h.ended) }

  function Skipped(h: History): int { Sum(Skips(), h.conns) + Sum(LifeSkip(), h.ended) }

  lemma EndedMore(ended: seq<Life>, e: Life)
    ensures Sum(LifeSpan(), ended + [e]) == Sum(LifeSpan(), ended) + e.span
    ensures Sum(LifeSkip(), ended + [e]) == Sum(LifeSkip(), ended) + e.skipped
  {
    SumConcat(LifeSpan(), ended, [e]);
    SumConcat(LifeSkip(), ended, [e]);
  }

  /** Turnaround, body and gap of every exchange, and the skipped send-to-send time, fill the spans. */
  predicate Tiled(h: History) { Sum(Times(), h.log) + Skipped(h) == Span(h) }

  predicate Conserved(h: History) {
    Sum(LogBytes(), h.log) + Sum(Gots(), h.conns) + h.lost == h.accepted
  }

  lemma LogGrows(log: seq<Exchange>, xs: seq<Exchange>)
    ensures Sum(Times(), log + xs) == Sum(Times(), log) + Sum(Times(), xs)
    ensures Sum(LogBytes(), log + xs) == Sum(LogBytes(), log) + Sum(LogBytes(), xs)
  {
    SumConcat(Times(), log, xs);
    SumConcat(LogBytes(), log, xs);
  }

  lemma ConnChanges(conns: seq<Option<Conn>>, fd: nat, c: Option<Conn>)
    requires fd < |conns|
    ensures Sum(Spans(), conns[fd := c]) == Sum(Spans(), conns) - Spans()(conns[fd]) + Spans()(c)
    ensures Sum(Skips(), conns[fd := c]) == Sum(Skips(), conns) - Skips()(conns[fd]) + Skips()(c)
    ensures Sum(Gots(), conns[fd := c]) == Sum(Gots(), conns) - Gots()(conns[fd]) + Gots()(c)
  {
    SumUpdate(Spans(), conns, fd, c);
    SumUpdate(Skips(), conns, fd, c);
    SumUpdate(Gots(), conns, fd, c);
  }

  /** One send adds to the log and the skipped time exactly what it adds to the span. */
  lemma SendAdvances(c: Conn, t: nat)
    requires c.Ok(t)
    ensures
      var xs, c' := Ended(c, GapAt(c, t)), AfterSend(c, t);
      && Sum(Times(), xs) + c'.skipped - c.skipped == c'.Span() - c.Span()
      && Sum(LogBytes(), xs) + c'.got == c.got
  {
  }

  lemma CloseAdvances(c: Conn, clock: nat)
    requires c.Ok(clock)
    ensures
      var xs := Ended(c, None);
      Sum(Times(), xs) == FinalSpan(c) - c.Span() && Sum(LogBytes(), xs) == c.got
  {
  }

  lemma SendTiles(h: History, fd: nat, t: nat)
    requires HistoryOk(h) && Tiled(h) && Conserved(h) && Tracked(h, fd) && h.clock <= t
    ensures Tiled(NoteSend(h, fd, t)) && Conserved(NoteSend(h, fd, t))
  {
    ConnIsOk(h, fd, t);
    var c := h.conns[fd].value;
    ConnChanges(h.conns, fd, Some(AfterSend(c, t)));
    LogGrows(h.log, Ended(c, GapAt(c, t)));
    SendAdvances(c, t);
  }

  lemma CloseTiles(h: History, fd: nat)
    requires HistoryOk(h) && Tiled(h) && Conserved(h) && Tracked(h, fd)
    ensures Tiled(NoteClose(h, fd)) && Conserved(NoteClose(h, fd))
  {
    ConnIsOk(h, fd, h.clock);
    var c := h.conns[fd].value;
    ConnChanges(h.conns, fd, None);
    LogGrows(h.log, Ended(c, None));
    EndedMore(h.ended, Life(c.id, FinalSpan(c), c.skipped, c.total, 0));
    CloseAdvances(c, h.clock);
  }

  lemma RecvTiles(h: History, fd: nat, t: nat, n: int)
    requires HistoryOk(h) && Tiled(h) && Conserved(h) && Tracked(h, fd) && h.clock <= t
    ensures Tiled(Note(h, Recv(fd, t, n))) && Conserved(Note(h, Recv(fd, t, n)))
  {
    ConnIsOk(h, fd, t);
    ConnChanges(h.conns, fd, Note(h, Recv(fd, t, n)).conns[fd]);
  }

  lemma ConnectTiles(h: History, fd: nat, port: nat)
    requires HistoryOk(h) && Tiled(h) && Conserved(h) && fd < |h.conns|
    ensures Tiled(Note(h, Connect(fd, port))) && Conserved(Note(h, Connect(fd, port)))
  {
    ConnChanges(h.conns, fd, Note(h, Connect(fd, port)).conns[fd]);
    if h.conns[fd].Some? {
      var c := h.conns[fd].value;
      EndedMore(h.ended, Life(c.id, c.Span(), c.skipped, c.total, c.got));
    }
  }

  lemma NoteTiles(h: History, ev: Event)
    requires HistoryOk(h) && Tiled(h) && Conserved(h) && InTime(h, ev)
    ensures Tiled(Note(h, ev)) && Conserved(Note(h, ev))
  {
    if ev.Connect? {
      if 0 <= ev.fd < |h.conns| && ev.port >= 0 {
        ConnectTiles(h, ev.fd, ev.port);
      }
    } else if Tracked(h, ev.fd) {
      match ev
      case Send(fd, t) => SendTiles(h, fd, t);
      case Recv(fd, t, n) => RecvTiles(h, fd, t, n);
      case Close(fd) => CloseTiles(h, fd);
    }
  }

  // ----- whole traces -----

  predicate Monotone(clock: nat, evs: seq<Event>)
    decreases |evs|
  {
    evs == [] ||
    (if evs[0].Send? || evs[0].Recv? then clock <= evs[0].t && Monotone(evs[0].t, evs[1..])
     else Monotone(clock, evs[1..]))
  }

  function Steps(st: State, evs: seq<Event>): State
    decreases |evs|
  {
    if evs == [] then st else Steps(Step(st, evs[0]), evs[1..])
  }

  function Notes(h: History, evs: seq<Event>): History
    requires HistoryOk(h) && Monotone(h.clock, evs)
    decreases |evs|
  {
    if evs == [] then h
    else
      NoteOk(h, evs[0]);
      Notes(Note(h, evs[0]), evs[1..])
  }

  function Start(n: nat): History {
    History(seq(n, _ => None), [], 0, [], 0, 0, 0)
  }

  lemma {:induction false} TraceLaws(st: State, h: History, evs: seq<Event>)
    requires Matches(st, h) && Tiled(h) && Conserved(h) && Monotone(h.clock, evs)
    ensures
      var st', h' := Steps(st, evs), Notes(h, evs);
      Matches(st', h') && Tiled(h') && Conserved(h')
    decreases |evs|
  {
    if evs != [] {
      NoteOk(h, evs[0]);
      StepMatches(st, h, evs[0]);
      NoteTiles(h, evs[0]);
      TraceLaws(Step(st, evs[0]), Note(h, evs[0]), evs[1..]);
    }
  }

  lemma StartLaws(n: nat)
    ensures Matches(Fresh(n), Start(n)) && Tiled(Start(n)) && Conserved(Start(n))
  {
    var none := Start(n).conns;
    SumBounds(Spans(), none, 0, 0);
    SumBounds(Skips(), none, 0, 0);
    SumBounds(Gots(), none, 0, 0);
  }

  // ----- read off the shim's own counters -----

  function AggTime(a: Agg): int { a.ttfb + a.body + a.gap }

  lemma AddedSums(req: Agg, hs: Agg, x: Exchange)
    ensures
      var r, h := Added(req, x, false), Added(hs, x, true);
      && AggTime(r) + AggTime(h) == AggTime(req) + AggTime(hs) + Times()(x)
      && r.bytes + h.bytes == req.bytes + hs.bytes + x.bytes
      && r.n + h.n == req.n + hs.n + 1
  {
  }

  lemma {:induction false} TallySums(log: seq<Exchange>)
    ensures
      var req, hs := Tally(log, false), Tally(log, true);
      && AggTime(req) + AggTime(hs) == Sum(Times(), log)
      && req.bytes + hs.bytes == Sum(LogBytes(), log)
      && req.n + hs.n == |log|
  {
    if log != [] {
      var front, x := log[..|log| - 1], log[|log| - 1];
      TallySums(front);
      AddedSums(Tally(front, false), Tally(front, true), x);
      LogMore(log, front, x);
    }
  }

  lemma LogMore(log: seq<Exchange>, front: seq<Exchange>, x: Exchange)
    requires log == front + [x]
    ensures Sum(Times(), log) == Sum(Times(), front) + Times()(x)
    ensures Sum(LogBytes(), log) == Sum(LogBytes(), front) + x.bytes
  {
    LogGrows(front, [x]);
  }

  function Ttfbs(log: seq<Exchange>, handshake: bool): seq<nat> {
    if log == [] then []
    else
      var rest, x := Ttfbs(log[..|log| - 1], handshake), log[|log| - 1];
      if x.handshake == handshake then rest + [x.ttfb] else rest
  }

  function Bodies(log: seq<Exchange>, handshake: bool): seq<nat> {
    if log == [] then []
    else
      var rest, x := Bodies(log[..|log| - 1], handshake), log[|log| - 1];
      if x.handshake == handshake then rest + [x.body] else rest
  }

  /** The histograms are those of the exchanges' own durations, one entry an exchange. */
  lemma {:induction false} TallyHistograms(log: seq<Exchange>, handshake: bool)
    ensures
      var a := Tally(log, handshake);
      && a.hTtfb == Recorded(Ttfbs(log, handshake)) && a.n == |Ttfbs(log, handshake)|
      && a.hBody == Recorded(Bodies(log, handshake)) && a.n == |Bodies(log, handshake)|
  {
    if log != [] {
      TallyHistograms(log[..|log| - 1], handshake);
      var x := log[|log| - 1];
      var ts, bs := Ttfbs(log[..|log| - 1], handshake), Bodies(log[..|log| - 1], handshake);
      assert (ts + [x.ttfb])[..|ts|] == ts && (bs + [x.body])[..|bs|] == bs;
    }
  }

  predicate Histogrammed(a: Agg, log: seq<Exchange>, handshake: bool) {
    && a.hTtfb == Recorded(Ttfbs(log, handshake)) && Cumulative(a.hTtfb, HB) == a.n
    && a.hBody == Recorded(Bodies(log, handshake)) && Cumulative(a.hBody, HB) == a.n
  }

  lemma HistogramTotals(log: seq<Exchange>, handshake: bool)
    ensures Histogrammed(Tally(log, handshake), log, handshake)
  {
    TallyHistograms(log, handshake);
    RecordedTotal(Ttfbs(log, handshake));
    RecordedTotal(Bodies(log, handshake));
  }

  function SlotBytes(): Slot -> int { (s: Slot) => if s.sock then s.bytes else 0 }

  lemma {:induction false} OpenBytes(slots: seq<Slot>, conns: seq<Option<Conn>>)
    requires |slots| == |conns| && forall i :: 0 <= i < |slots| ==> SlotMatches(slots[i], conns[i])
    ensures Sum(SlotBytes(), slots) == Sum(Gots(), conns)
  {
    if slots != [] {
      assert SlotMatches(slots[0], conns[0]);
      OpenBytes(slots[1..], conns[1..]);
    }
  }

  /** What is true of any shim that is in step with a history that tiles and conserves. */
  predicate Accounts(st: State, h: History) {
    && AggTime(st.req) + AggTime(st.hs) + Skipped(h) == Span(h)
    && st.req.bytes + st.hs.bytes + Sum(SlotBytes(), st.slots) + h.lost == h.accepted
    && Histogrammed(st.req, h.log, false) && Histogrammed(st.hs, h.log, true)
  }

  lemma MatchedAccounts(st: State, h: History)
    requires Matches(st, h) && Tiled(h) && Conserved(h)
    ensures Accounts(st, h)
  {
    TallySums(h.log);
    OpenBytes(st.slots, h.conns);
    HistogramTotals(h.log, false);
    HistogramTotals(h.log, true);
  }

  /**
   For every trace with a monotone clock: the accumulated times and the skipped send-to-send
   time tile the connections' spans, received bytes are in a counter, in an open slot or lost
   to a reconnect, and each histogram has one entry per counted exchange.
   */
  lemma Accounting(n: nat, evs: seq<Event>)
    requires Monotone(0, evs)
    ensures Accounts(Steps(Fresh(n), evs), Notes(Start(n), evs))
  {
    StartLaws(n);
    TraceLaws(Fresh(n), Start(n), evs);
    MatchedAccounts(Steps(Fresh(n), evs), Notes(Start(n), evs));
  }

  // ----- what a reconnect costs, and what exit leaves -----

  /** No connect hits a descriptor whose exchange has bytes but is not finished. */
  predicate NoLiveReconnect(h: History, evs: seq<Event>)
    requires HistoryOk(h) && Monotone(h.clock, evs)
    decreases |evs|
  {
    evs == [] ||
    (NoteOk(h, evs[0]);
     && (evs[0].Connect? && evs[0].port >= 0 && Tracked(h, evs[0].fd) ==> h.conns[evs[0].fd].value.got == 0)
     && NoLiveReconnect(Note(h, evs[0]), evs[1..]))
  }

  /** Bytes are lost if and only if a connect hits a descriptor with an unfinished exchange. */
  lemma {:induction false} LostOnlyByReconnect(h: History, evs: seq<Event>)
    requires HistoryOk(h) && Monotone(h.clock, evs)
    ensures Notes(h, evs).lost >= h.lost
    ensures Notes(h, evs).lost == h.lost <==> NoLiveReconnect(h, evs)
    decreases |evs|
  {
    if evs != [] {
      NoteOk(h, evs[0]);
      LostOnlyByReconnect(Note(h, evs[0]), evs[1..]);
    }
  }

  /** Closing the first `k` descriptors in turn. */
  function Closes(k: nat): seq<Event> {
    if k == 0 then [] else Closes(k - 1) + [Close(k - 1)]
  }

  lemma {:induction false} StepsConcat(st: State, a: seq<Event>, b: seq<Event>)
    ensures Steps(st, a + b) == Steps(Steps(st, a), b)
    decreases |a|
  {
    if a == [] {
      assert a + b == b;
    } else {
      assert (a + b)[1..] == a[1..] + b;
      StepsConcat(Step(st, a[0]), a[1..], b);
    }
  }

  lemma {:induction false} ClosesMonotone(clock: nat, k: nat)
    ensures Monotone(clock, Closes(k))
  {
    if k > 0 {
      ClosesMonotone(clock, k - 1);
      MonotoneAppend(clock, Closes(k - 1), Close(k - 1));
    }
  }

  lemma {:induction false} MonotoneAppend(clock: nat, evs: seq<Event>, ev: Event)
    requires Monotone(clock, evs) && (ev.Close? || ev.Connect?)
    ensures Monotone(clock, evs + [ev])
    decreases |evs|
  {
    if evs == [] {
      assert evs + [ev] == [ev];
    } else {
      assert (evs + [ev])[1..] == evs[1..] + [ev];
      MonotoneAppend(if evs[0].Send? || evs[0].Recv? then evs[0].t else clock, evs[1..], ev);
    }
  }

  /** The flush and the closing of the first `k` descriptors differ in their sockets alone. */
  predicate SameCounts(a: State, b: State, k: nat) {
    && a.req == b.req && a.hs == b.hs && |a.slots| == |b.slots|
    && forall i :: 0 <= i < |a.slots| ==> b.slots[i] == if i < k then a.slots[i].(sock := false) else a.slots[i]
  }

  lemma FlushOne(a: State, b: State, k: nat, a': State, b': State)
    requires SameCounts(a, b, k) && k < |a.slots|
    requires a' == (if a.slots[k].sock then Closing(a, k, 0, false) else a) && b' == Closed(b, k)
    ensures SameCounts(a', b', k + 1)
  {
  }

  lemma ClosesMore(st: State, k: nat)
    ensures Steps(st, Closes(k + 1)) == Closed(Steps(st, Closes(k)), k)
  {
    var b := Steps(st, Closes(k));
    StepsConcat(st, Closes(k), [Close(k)]);
    assert [Close(k)][1..] == [] && Steps(b, [Close(k)]) == Closed(b, k);
  }

  /** The exit pass counts what closing every descriptor would count. */
  lemma {:induction false} FlushIsClosing(st: State, k: nat)
    requires k <= |st.slots|
    ensures SameCounts(Flushed(st, k), Steps(st, Closes(k)), k) && |Steps(st, Closes(k)).slots| == |st.slots|
  {
    if k > 0 {
      FlushIsClosing(st, k - 1);
      ClosesMore(st, k - 1);
      FlushOne(Flushed(st, k - 1), Steps(st, Closes(k - 1)), k - 1, Flushed(st, k), Steps(st, Closes(k)));
    }
  }

  lemma {:induction false} MonotoneConcat(clock: nat, evs: seq<Event>, k: nat)
    requires Monotone(clock, evs)
    ensures Monotone(clock, evs + Closes(k))
    decreases |evs|
  {
    if evs == [] {
      assert evs + Closes(k) == Closes(k);
      ClosesMonotone(clock, k);
    } else {
      assert (evs + Closes(k))[1..] == evs[1..] + Closes(k);
      MonotoneConcat(if evs[0].Send? || evs[0].Recv? then evs[0].t else clock, evs[1..], k);
    }
  }

  lemma {:induction false} SlotCount(st: State, evs: seq<Event>)
    ensures |Steps(st, evs).slots| == |st.slots|
    decreases |evs|
  {
    if evs != [] {
      SlotCount(Step(st, evs[0]), evs[1..]);
    }
  }

  /** The flush leaves the counters that closing everything leaves, and then nothing is open. */
  lemma FlushClosesAll(st: State)
    ensures
      var n := |st.slots|;
      var a, b := Flushed(st, n), Steps(st, Closes(n));
      && a.req == b.req && a.hs == b.hs && |b.slots| == n && forall i :: 0 <= i < n ==> !b.slots[i].sock
  {
    FlushIsClosing(st, |st.slots|);
  }

  lemma ExitCounters(n: nat, evs: seq<Event>, st: State, closed: State)
    requires Monotone(0, evs) && st == Steps(Fresh(n), evs) && closed == Steps(Fresh(n), evs + Closes(n))
    ensures |st.slots| == n
    ensures Flushed(st, n).req == closed.req && Flushed(st, n).hs == closed.hs
    ensures |closed.slots| == n && forall i :: 0 <= i < n ==> !closed.slots[i].sock
  {
    SlotCount(Fresh(n), evs);
    StepsConcat(Fresh(n), evs, Closes(n));
    FlushClosesAll(st);
  }

  /** Everything is accounted for in the ended lives once no slot is open. */
  predicate Settled(req: Agg, hs: Agg, end: History) {
    && AggTime(req) + AggTime(hs) + Sum(LifeSkip(), end.ended) == Sum(LifeSpan(), end.ended)
    && req.bytes + hs.bytes + end.lost == end.accepted
  }

  lemma ClosedAccounts(closed: State, end: History)
    requires Matches(closed, end) && Tiled(end) && Conserved(end)
    requires forall i :: 0 <= i < |closed.slots| ==> !closed.slots[i].sock
    ensures Settled(closed.req, closed.hs, end)
  {
    TallySums(end.log);
    NothingOpen(closed.slots, end.conns);
  }

  /**
   At exit nothing is open: the counters hold every byte received except those a reconnect
   dropped, and the times with the skipped stretches fill the lives of all connections.
   */
  lemma AtExit(n: nat, evs: seq<Event>)
    requires Monotone(0, evs)
    ensures |Steps(Fresh(n), evs).slots| == n && Monotone(0, evs + Closes(n))
    ensures
      var final := Flushed(Steps(Fresh(n), evs), n);
      Settled(final.req, final.hs, Notes(Start(n), evs + Closes(n)))
  {
    MonotoneConcat(0, evs, n);
    var closed := Steps(Fresh(n), evs + Closes(n));
    ExitCounters(n, evs, Steps(Fresh(n), evs), closed);
    StartLaws(n);
    TraceLaws(Fresh(n), Start(n), evs + Closes(n));
    ClosedAccounts(closed, Notes(Start(n), evs + Closes(n)));
  }

  lemma NothingOpen(slots: seq<Slot>, conns: seq<Option<Conn>>)
    requires |slots| == |conns|
    requires forall i :: 0 <= i < |slots| ==> !slots[i].sock && SlotMatches(slots[i], conns[i])
    ensures Sum(Spans(), conns) == Sum(Skips(), conns) == Sum(Gots(), conns) == 0
  {
    forall c | c in conns ensures c == None {
      var i :| 0 <= i < |conns| && conns[i] == c;
      assert SlotMatches(slots[i], conns[i]);
    }
    SumBounds(Spans(), conns, 0, 0);
    SumBounds(Skips(), conns, 0, 0);
    SumBounds(Gots(), conns, 0, 0);
  }
}
