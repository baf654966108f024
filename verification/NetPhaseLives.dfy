/** The accounting laws of the socket shim, connection by connection. */
module NetPhaseLives {
  import opened Options
  import opened Sums
  import opened NetPhase
  import opened NetPhaseLaws

  /** The times and the bytes of one connection's exchanges. */
  function TimesOf(id: nat): Exchange -> int {
    (x: Exchange) => if x.conn == id then Times()(x) else 0
  }

  function BytesOf(id: nat): Exchange -> int {
    (x: Exchange) => if x.conn == id then x.bytes else 0
  }

  /** An open connection: its exchanges and skipped time fill it up to the latest send. */
  predicate OpenTiled(log: seq<Exchange>, c: Conn) {
    && Sum(TimesOf(c.id), log) + c.skipped == c.Span()
    && Sum(BytesOf(c.id), log) + c.got == c.total
  }

  /** A connection that is over: they fill its life, and its bytes are counted or lost. */
  predicate LifeTiled(log: seq<Exchange>, e: Life) {
    && Sum(TimesOf(e.id), log) + e.skipped == e.span
    && Sum(BytesOf(e.id), log) + e.lost == e.total
  }

  predicate EachTiled(h: History) {
    && (forall i :: 0 <= i < |h.conns| && h.conns[i].Some? ==> OpenTiled(h.log, h.conns[i].value))
    && (forall k :: 0 <= k < |h.ended| ==> LifeTiled(h.log, h.ended[k]))
  }

  /** Numbers are given once. */
  predicate Numbered(h: History) {
    && (forall i :: 0 <= i < |h.conns| && h.conns[i].Some? ==> h.conns[i].value.id < h.count)
    && (forall k :: 0 <= k < |h.ended| ==> h.ended[k].id < h.count)
    && (forall k :: 0 <= k < |h.log| ==> h.log[k].conn < h.count)
    && (forall i, j :: 0 <= i < j < |h.conns| && h.conns[i].Some? && h.conns[j].Some? ==>
          h.conns[i].value.id != h.conns[j].value.id)
    && (forall i, k :: 0 <= i < |h.conns| && h.conns[i].Some? && 0 <= k < |h.ended| ==>
          h.conns[i].value.id != h.ended[k].id)
    && (forall j, k :: 0 <= j < k < |h.ended| ==> h.ended[j].id != h.ended[k].id)
  }

  /** Each number belongs to an open or an ended connection. */
  ghost predicate Kept(h: History) {
    forall id: nat :: id < h.count ==> IsOpen(h, id) || IsOver(h, id)
  }

  predicate IsOpen(h: History, id: nat) {
    exists i :: 0 <= i < |h.conns| && h.conns[i].Some? && h.conns[i].value.id == id
  }

  predicate IsOver(h: History, id: nat) { exists k :: 0 <= k < |h.ended| && h.ended[k].id == id }

  // ----- the log grows by one connection's exchange -----

  lemma Grown(log: seq<Exchange>, xs: seq<Exchange>, id: nat)
    ensures Sum(TimesOf(id), log + xs) == Sum(TimesOf(id), log) + Sum(TimesOf(id), xs)
    ensures Sum(BytesOf(id), log + xs) == Sum(BytesOf(id), log) + Sum(BytesOf(id), xs)
  {
    SumConcat(TimesOf(id), log, xs);
    SumConcat(BytesOf(id), log, xs);
  }

  /** What one connection finishes is not another's. */
  lemma OwnExchange(c: Conn, gap: Option<nat>, id: nat)
    requires c.recvs != [] ==> c.lastSend <= c.recvs[0] <= c.recvs[|c.recvs| - 1]
    ensures
      var xs := Ended(c, gap);
      if id == c.id then Sum(TimesOf(id), xs) == Sum(Times(), xs) && Sum(BytesOf(id), xs) == Sum(LogBytes(), xs)
      else Sum(TimesOf(id), xs) == Sum(BytesOf(id), xs) == 0
  {
  }

  lemma OthersTiled(log: seq<Exchange>, c: Conn, gap: Option<nat>, other: Conn, life: Life)
    requires c.recvs != [] ==> c.lastSend <= c.recvs[0] <= c.recvs[|c.recvs| - 1]
    ensures other.id != c.id && OpenTiled(log, other) ==> OpenTiled(log + Ended(c, gap), other)
    ensures life.id != c.id && LifeTiled(log, life) ==> LifeTiled(log + Ended(c, gap), life)
  {
    Grown(log, Ended(c, gap), other.id);
    Grown(log, Ended(c, gap), life.id);
    OwnExchange(c, gap, other.id);
    OwnExchange(c, gap, life.id);
  }

  lemma SendTilesOwn(log: seq<Exchange>, c: Conn, t: nat)
    requires c.Ok(t) && OpenTiled(log, c)
    ensures OpenTiled(log + Ended(c, GapAt(c, t)), AfterSend(c, t)) && AfterSend(c, t).id == c.id
  {
    SendAdvances(c, t);
    Grown(log, Ended(c, GapAt(c, t)), c.id);
    OwnExchange(c, GapAt(c, t), c.id);
  }

  lemma CloseTilesOwn(log: seq<Exchange>, c: Conn, clock: nat)
    requires c.Ok(clock) && OpenTiled(log, c)
    ensures LifeTiled(log + Ended(c, None), Life(c.id, FinalSpan(c), c.skipped, c.total, 0))
  {
    CloseAdvances(c, clock);
    Grown(log, Ended(c, None), c.id);
    OwnExchange(c, None, c.id);
  }

  /** A number not given yet has nothing in the log. */
  lemma {:induction false} NothingYet(log: seq<Exchange>, id: nat)
    requires forall k :: 0 <= k < |log| ==> log[k].conn < id
    ensures Sum(TimesOf(id), log) == Sum(BytesOf(id), log) == 0
  {
    assert forall x <- log :: x.conn < id;
    SumBounds(TimesOf(id), log, 0, 0);
    SumBounds(BytesOf(id), log, 0, 0);
  }

  // ----- every event keeps it -----

  ghost predicate Lives(h: History) { HistoryOk(h) && Numbered(h) && EachTiled(h) && Kept(h) }

  lemma SendLives(h: History, fd: nat, t: nat)
    requires Lives(h) && Tracked(h, fd) && h.clock <= t
    ensures Numbered(NoteSend(h, fd, t)) && EachTiled(NoteSend(h, fd, t)) && Kept(NoteSend(h, fd, t))
  {
    ConnIsOk(h, fd, t);
    var c, h' := h.conns[fd].value, NoteSend(h, fd, t);
    SendTilesOwn(h.log, c, t);
    forall i | 0 <= i < |h.conns| && i != fd && h.conns[i].Some? ensures OpenTiled(h'.log, h.conns[i].value) {
      OthersTiled(h.log, c, GapAt(c, t), h.conns[i].value, Life(c.id, 0, 0, 0, 0));
    }
    forall k | 0 <= k < |h.ended| ensures LifeTiled(h'.log, h.ended[k]) {
      OthersTiled(h.log, c, GapAt(c, t), c, h.ended[k]);
    }
    SameNumbers(h, h', fd);
  }

  /** The connection at one descriptor changes but keeps its number. */
  lemma SameNumbers(h: History, h': History, fd: nat)
    requires Numbered(h) && Kept(h) && fd < |h.conns| == |h'.conns| && h.conns[fd].Some? && h'.conns[fd].Some?
    requires h'.conns == h.conns[fd := h'.conns[fd]] && h'.conns[fd].value.id == h.conns[fd].value.id
    requires h'.ended == h.ended && h'.count == h.count
    requires forall k :: 0 <= k < |h'.log| ==> h'.log[k].conn < h.count
    ensures Numbered(h') && Kept(h')
  {
    forall id: nat | id < h'.count ensures IsOpen(h', id) || IsOver(h', id) {
      if IsOpen(h, id) {
        var i :| 0 <= i < |h.conns| && h.conns[i].Some? && h.conns[i].value.id == id;
        assert h'.conns[i].Some? && h'.conns[i].value.id == id;
      } else {
        assert IsOver(h, id);
      }
    }
  }

  /** A connection moves from the open to the ended ones. */
  lemma EndedNumbers(h: History, h': History, fd: nat, e: Life)
    requires Numbered(h) && Kept(h) && fd < |h.conns| && h.conns[fd].Some? && e.id == h.conns[fd].value.id
    requires h'.conns == h.conns[fd := None] && h'.ended == h.ended + [e] && h'.count == h.count
    requires forall k :: 0 <= k < |h'.log| ==> h'.log[k].conn < h.count
    ensures Numbered(h') && Kept(h')
  {
    forall id: nat | id < h'.count ensures IsOpen(h', id) || IsOver(h', id) {
      if IsOpen(h, id) {
        var i :| 0 <= i < |h.conns| && h.conns[i].Some? && h.conns[i].value.id == id;
        if i == fd {
          assert h'.ended[|h.ended|].id == id;
        } else {
          assert h'.conns[i].Some? && h'.conns[i].value.id == id;
        }
      } else {
        var k :| 0 <= k < |h.ended| && h.ended[k].id == id;
        assert h'.ended[k].id == id;
      }
    }
  }

  lemma CloseLives(h: History, fd: nat)
    requires Lives(h) && Tracked(h, fd)
    ensures Numbered(NoteClose(h, fd)) && EachTiled(NoteClose(h, fd)) && Kept(NoteClose(h, fd))
  {
    ConnIsOk(h, fd, h.clock);
    var c, h' := h.conns[fd].value, NoteClose(h, fd);
    var e := Life(c.id, FinalSpan(c), c.skipped, c.total, 0);
    CloseTilesOwn(h.log, c, h.clock);
    forall i | 0 <= i < |h.conns| && i != fd && h.conns[i].Some? ensures OpenTiled(h'.log, h.conns[i].value) {
      OthersTiled(h.log, c, None, h.conns[i].value, e);
    }
    forall k | 0 <= k < |h.ended| ensures LifeTiled(h'.log, h.ended[k]) {
      OthersTiled(h.log, c, None, c, h.ended[k]);
    }
    EndedNumbers(h, h', fd, e);
  }

  lemma RecvLives(h: History, fd: nat, t: nat, n: int)
    requires Lives(h) && Tracked(h, fd) && h.clock <= t
    ensures
      var h' := Note(h, Recv(fd, t, n));
      Numbered(h') && EachTiled(h') && Kept(h')
  {
    SameNumbers(h, Note(h, Recv(fd, t, n)), fd);
  }

  /** A fresh connection takes an empty place under the next number. */
  lemma NewNumbers(h: History, h': History, fd: nat, c: Conn)
    requires Numbered(h) && Kept(h) && fd < |h.conns| && h.conns[fd].None? && c.id == h.count
    requires h' == h.(conns := h.conns[fd := Some(c)], count := h.count + 1)
    ensures Numbered(h') && Kept(h')
  {
    forall id: nat | id < h'.count ensures IsOpen(h', id) || IsOver(h', id) {
      if id == h.count {
        assert h'.conns[fd].value.id == id;
      } else if IsOpen(h, id) {
        var i :| 0 <= i < |h.conns| && h.conns[i].Some? && h.conns[i].value.id == id;
        assert h'.conns[i].Some? && h'.conns[i].value.id == id;
      } else {
        var k :| 0 <= k < |h.ended| && h.ended[k].id == id;
        assert h'.ended[k].id == id;
      }
    }
  }

  /** A reconnect ends the connection at its descriptor where it stands. */
  function Dropped(h: History, fd: nat): History
    requires fd < |h.conns|
  {
    if h.conns[fd].None? then h
    else
      var c := h.conns[fd].value;
      h.(conns := h.conns[fd := None], ended := h.ended + [Life(c.id, c.Span(), c.skipped, c.total, c.got)],
         lost := h.lost + c.got)
  }

  lemma DroppedLives(h: History, fd: nat)
    requires Numbered(h) && EachTiled(h) && Kept(h) && fd < |h.conns|
    ensures Numbered(Dropped(h, fd)) && EachTiled(Dropped(h, fd)) && Kept(Dropped(h, fd))
  {
    if h.conns[fd].Some? {
      var c := h.conns[fd].value;
      assert OpenTiled(h.log, c);
      EndedNumbers(h, Dropped(h, fd), fd, Life(c.id, c.Span(), c.skipped, c.total, c.got));
    }
  }

  lemma ConnectLives(h: History, fd: nat, port: int)
    requires Lives(h) && fd < |h.conns| && port >= 0
    ensures
      var h' := Note(h, Connect(fd, port));
      Numbered(h') && EachTiled(h') && Kept(h')
  {
    var d, c := Dropped(h, fd), NewConn(h.count, port == 443);
    DroppedLives(h, fd);
    var h' := d.(conns := d.conns[fd := Some(c)], count := d.count + 1);
    assert h.conns[fd := None][fd := Some(c)] == h.conns[fd := Some(c)];
    assert Note(h, Connect(fd, port)) == h';
    NewNumbers(d, h', fd, c);
    NothingYet(d.log, c.id);
  }

  lemma NoteLives(h: History, ev: Event)
    requires Lives(h) && InTime(h, ev)
    ensures Lives(Note(h, ev))
  {
    NoteOk(h, ev);
    if ev.Connect? {
      if 0 <= ev.fd < |h.conns| && ev.port >= 0 {
        ConnectLives(h, ev.fd, ev.port);
      }
    } else if Tracked(h, ev.fd) {
      match ev
      case Send(fd, t) => SendLives(h, fd, t);
      case Recv(fd, t, n) => RecvLives(h, fd, t, n);
      case Close(fd) => CloseLives(h, fd);
    } else if !ev.Close? {
      ClockOnly(h, ev.t);
    }
  }

  lemma ClockOnly(h: History, t: nat)
    requires Numbered(h) && EachTiled(h) && Kept(h)
    ensures Numbered(h.(clock := t)) && EachTiled(h.(clock := t)) && Kept(h.(clock := t))
  {
    forall id: nat | id < h.count ensures IsOpen(h.(clock := t), id) || IsOver(h.(clock := t), id) {
      assert IsOpen(h, id) || IsOver(h, id);
    }
  }

  lemma {:induction false} TraceLives(h: History, evs: seq<Event>)
    requires Lives(h) && Monotone(h.clock, evs)
    ensures Lives(Notes(h, evs))
    decreases |evs|
  {
    if evs != [] {
      NoteLives(h, evs[0]);
      TraceLives(Note(h, evs[0]), evs[1..]);
    }
  }

  /**
   For every trace with a monotone clock and each connection by itself: turnaround, body and
   gap of its exchanges with its skipped send-to-send time fill its span from first send to
   last accounted instant, and what it received is in its exchanges, still open or lost. Each
   connection ever opened is one of those, under a number of its own.
   */
  lemma EachConnection(n: nat, evs: seq<Event>)
    requires Monotone(0, evs)
    ensures
      var h := Notes(Start(n), evs);
      && (forall i :: 0 <= i < |h.conns| && h.conns[i].Some? ==> OpenTiled(h.log, h.conns[i].value))
      && (forall k :: 0 <= k < |h.ended| ==> LifeTiled(h.log, h.ended[k]))
      && Numbered(h) && Kept(h)
  {
    TraceLives(Start(n), evs);
  }
}
