/**
 The socket shim's exchanges, from the events alone: between which send and receives each of
 them lies, which event ended it, and that there are no others.
 */
module NetPhaseExchanges {
  import opened Options
  import opened Sums
  import opened NetPhase
  import opened NetPhaseLaws
  import opened NetPhaseTrace

  predicate SendOn(ev: Event, fd: int) { ev.Send? && ev.fd == fd }

  predicate GetsOn(ev: Event, fd: int) { ev.Recv? && ev.fd == fd && ev.n > 0 }

  /** No send on the descriptor behind event `s` and before event `k`. */
  predicate NoSend(evs: seq<Event>, s: nat, k: nat, fd: int)
    requires k <= |evs|
  {
    forall j :: s < j < k ==> !SendOn(evs[j], fd)
  }

  predicate Ascending(at: seq<nat>) { forall i, j :: 0 <= i < j < |at| ==> at[i] < at[j] }

  /** All the receives on the descriptor behind event `s` and before event `k`, in order. */
  predicate AllGets(evs: seq<Event>, s: nat, k: nat, fd: int, at: seq<nat>)
    requires k <= |evs|
  {
    && Ascending(at) && (forall i :: 0 <= i < |at| ==> s < at[i] < k && GetsOn(evs[at[i]], fd))
    && forall r: nat :: s < r < k && GetsOn(evs[r], fd) ==> r in at
  }

  function BytesAt(evs: seq<Event>, at: seq<nat>): int
    requires AllReceives(evs, at)
  {
    if at == [] then 0 else BytesAt(evs, at[..|at| - 1]) + evs[at[|at| - 1]].n
  }

  /** Where an exchange lies: the events that opened, asked, received and ended it. */
  datatype Found = Found(open: nat, send: nat, recvs: seq<nat>, end: nat)

  /** How many exchanges of the connection opened there were found. */
  function CountOf(found: seq<Found>, open: nat): nat {
    if found == [] then 0
    else CountOf(found[..|found| - 1], open) + if found[|found| - 1].open == open then 1 else 0
  }

  /** An exchange lies on one connection, from its last send before the receives to what ended it. */
  predicate Lies(n: nat, evs: seq<Event>, f: Found) {
    && f.open < f.send < f.end < |evs| && f.recvs != []
    && var fd := evs[f.end].fd;
       && Opens(n, evs[f.open], fd) && Undisturbed(n, evs, f.open + 1, f.end, fd)
       && SendOn(evs[f.send], fd) && NoSend(evs, f.send, f.end, fd)
       && AllGets(evs, f.send, f.end, fd, f.recvs)
       && (evs[f.end].Send? || evs[f.end].Close?)
  }

  /** The log's record of it, the `nth` of its connection. */
  predicate Records(n: nat, evs: seq<Event>, f: Found, nth: nat, x: Exchange)
    requires Lies(n, evs, f)
  {
    var first, last := evs[f.recvs[0]].t, evs[f.recvs[|f.recvs| - 1]].t;
    && x.ttfb == first - evs[f.send].t && x.body == last - first && x.bytes == BytesAt(evs, f.recvs)
    && (if evs[f.end].Send? then x.gap.Some? && last + x.gap.value == evs[f.end].t else x.gap.None?)
    && (x.handshake <==> evs[f.open].port == 443 && nth % 0x1_0000_0000 == 0)
  }

  /** Event `e` ends an exchange: something was received and neither a send nor a close came since. */
  predicate EndsOne(n: nat, evs: seq<Event>, e: nat)
    requires e < |evs|
  {
    && (evs[e].Send? || evs[e].Close?)
    && exists r: nat :: r < e && EndsGet(n, evs, r, e)
  }

  predicate EndsGet(n: nat, evs: seq<Event>, r: nat, e: nat)
    requires r < e < |evs|
  {
    && Accepts(n, evs, r) && evs[r].fd == evs[e].fd && Undisturbed(n, evs, r + 1, e, evs[e].fd)
    && NoSend(evs, r, e, evs[e].fd)
  }

  // ----- where a connection stands -----

  /** The event that opened a connection, its latest send and what came back since. */
  datatype Mark = Mark(open: nat, send: Option<nat>, recvs: seq<nat>)

  predicate MarkLies(n: nat, evs: seq<Event>, k: nat, fd: int, m: Mark)
    requires k <= |evs|
  {
    && m.open < k && Opens(n, evs[m.open], fd) && Undisturbed(n, evs, m.open + 1, k, fd)
    && match m.send
       case None => m.recvs == [] && NoSend(evs, m.open, k, fd)
       case Some(s) =>
         m.open < s < k && SendOn(evs[s], fd) && NoSend(evs, s, k, fd) && AllGets(evs, s, k, fd, m.recvs)
  }

  predicate AllReceives(evs: seq<Event>, at: seq<nat>) {
    forall i :: 0 <= i < |at| ==> at[i] < |evs| && evs[at[i]].Recv?
  }

  /** The history has of the connection what the events say. */
  predicate MarkHolds(evs: seq<Event>, m: Mark, c: Conn) {
    && m.open < |evs| && evs[m.open].Connect? && AllReceives(evs, m.recvs)
    && c.tls == (evs[m.open].port == 443) && c.got == BytesAt(evs, m.recvs) && TimesAt(evs, m.recvs, c.recvs)
    && match m.send
       case None => c.first.None?
       case Some(s) => c.first.Some? && s < |evs| && evs[s].Send? && c.lastSend == evs[s].t
  }

  predicate MarkIs(n: nat, evs: seq<Event>, k: nat, fd: int, m: Mark, c: Conn)
    requires k <= |evs|
  {
    MarkLies(n, evs, k, fd, m) && MarkHolds(evs, m, c)
  }

  predicate TimesAt(evs: seq<Event>, at: seq<nat>, times: seq<nat>)
    requires AllReceives(evs, at)
  {
    |times| == |at| && forall i :: 0 <= i < |at| ==> times[i] == evs[at[i]].t
  }

  /** An event that is none of the connection's business. */
  predicate Idles(n: nat, ev: Event, fd: int, m: Mark) {
    !Resets(n, ev, fd) && !SendOn(ev, fd) && (m.send.Some? ==> !GetsOn(ev, fd))
  }

  lemma MarkStays(n: nat, evs: seq<Event>, k: nat, fd: int, m: Mark, c: Conn)
    requires k < |evs| && MarkIs(n, evs, k, fd, m, c) && Idles(n, evs[k], fd, m)
    ensures MarkIs(n, evs, k + 1, fd, m, c)
  {
  }

  lemma MarkOpened(n: nat, evs: seq<Event>, k: nat, fd: int, id: nat)
    requires k < |evs| && Opens(n, evs[k], fd)
    ensures MarkIs(n, evs, k + 1, fd, Mark(k, None, []), NewConn(id, evs[k].port == 443))
  {
  }

  lemma MarkSent(n: nat, evs: seq<Event>, k: nat, fd: int, m: Mark, c: Conn)
    requires k < |evs| && MarkIs(n, evs, k, fd, m, c) && SendOn(evs[k], fd) && c.Ok(evs[k].t)
    ensures MarkIs(n, evs, k + 1, fd, m.(send := Some(k), recvs := []), AfterSend(c, evs[k].t))
  {
  }

  lemma GetsMore(evs: seq<Event>, s: nat, k: nat, fd: int, at: seq<nat>, at': seq<nat>)
    requires s < k < |evs| && AllGets(evs, s, k, fd, at) && GetsOn(evs[k], fd) && at' == at + [k]
    ensures AllGets(evs, s, k + 1, fd, at')
  {
    assert forall r: nat :: r in at || r == k ==> r in at';
  }

  lemma HoldsMore(evs: seq<Event>, k: nat, m: Mark, c: Conn, m': Mark, c': Conn)
    requires k < |evs| && evs[k].Recv? && evs[k].n > 0 && MarkHolds(evs, m, c)
    requires c' == c.(recvs := c.recvs + [evs[k].t], got := c.got + evs[k].n, total := c.total + evs[k].n)
    requires m' == m.(recvs := m.recvs + [k])
    ensures MarkHolds(evs, m', c')
  {
    assert m'.recvs[..|m.recvs|] == m.recvs;
  }

  lemma MarkGot(n: nat, evs: seq<Event>, k: nat, fd: int, m: Mark, c: Conn, m': Mark, c': Conn)
    requires k < |evs| && MarkIs(n, evs, k, fd, m, c) && GetsOn(evs[k], fd) && m.send.Some?
    requires c' == c.(recvs := c.recvs + [evs[k].t], got := c.got + evs[k].n, total := c.total + evs[k].n)
    requires m' == m.(recvs := m.recvs + [k])
    ensures MarkIs(n, evs, k + 1, fd, m', c')
  {
    GetsMore(evs, m.send.value, k, fd, m.recvs, m'.recvs);
    HoldsMore(evs, k, m, c, m', c');
  }

  // ----- the ends -----

  /** An event ends an exchange if and only if something came back since the latest send. */
  lemma EndsIff(n: nat, evs: seq<Event>, k: nat, m: Mark, c: Conn)
    requires k < |evs| && MarkIs(n, evs, k, evs[k].fd, m, c) && (evs[k].Send? || evs[k].Close?)
    ensures EndsOne(n, evs, k) <==> m.recvs != []
  {
    if m.recvs != [] {
      var r := m.recvs[|m.recvs| - 1];
      OpenAt(n, evs, k, m.open, m.send.value, evs[k].fd);
      AwaitsAt(n, evs, m.send.value, r, evs[k].fd);
      assert EndsGet(n, evs, r, k);
    }
    if EndsOne(n, evs, k) {
      var r: nat :| r < k && EndsGet(n, evs, r, k);
      GotSince(n, evs, k, r, m, c);
    }
  }

  lemma GotSince(n: nat, evs: seq<Event>, k: nat, r: nat, m: Mark, c: Conn)
    requires r < k < |evs| && MarkIs(n, evs, k, evs[k].fd, m, c) && EndsGet(n, evs, r, k)
    ensures m.recvs != []
  {
    var fd := evs[k].fd;
    var s: nat :| s < r && evs[s].fd == fd && Asks(n, evs, s) && Undisturbed(n, evs, s + 1, r, fd);
    OpenSince(n, evs, s, r, k, m.open, fd);
    assert SendOn(evs[s], fd) && GetsOn(evs[r], fd);
    assert m.send.Some? && m.send.value < r;
    assert r in m.recvs;
  }

  lemma OpenSince(n: nat, evs: seq<Event>, s: nat, r: nat, k: nat, open: nat, fd: int)
    requires s < r < k <= |evs| && evs[s].fd == evs[r].fd == fd && Asks(n, evs, s) && Undisturbed(n, evs, s + 1, r, fd)
    requires Undisturbed(n, evs, r + 1, k, fd) && evs[r].Recv?
    requires open < k && Opens(n, evs[open], fd) && Undisturbed(n, evs, open + 1, k, fd)
    ensures open < s
  {
    var o: nat :| o < s && Opens(n, evs[o], fd) && Undisturbed(n, evs, o + 1, s, fd);
    assert Undisturbed(n, evs, o + 1, k, fd);
    LastReset(n, evs, o, k, open, fd);
  }

  lemma OpenAt(n: nat, evs: seq<Event>, k: nat, o: nat, s: nat, fd: int)
    requires o < s < k <= |evs| && Opens(n, evs[o], fd) && Undisturbed(n, evs, o + 1, k, fd) && SendOn(evs[s], fd)
    ensures Asks(n, evs, s) && Undisturbed(n, evs, s + 1, k, fd)
  {
    assert Undisturbed(n, evs, o + 1, s, fd);
  }

  lemma AwaitsAt(n: nat, evs: seq<Event>, s: nat, r: nat, fd: int)
    requires s < r < |evs| && Asks(n, evs, s) && evs[s].fd == fd && Undisturbed(n, evs, s + 1, r, fd)
    ensures Awaits(n, evs, r, fd)
  {
  }

  /** The latest connect is one. */
  lemma LastReset(n: nat, evs: seq<Event>, o: nat, k: nat, o': nat, fd: int)
    requires o < k <= |evs| && o' < k && Opens(n, evs[o], fd) && Opens(n, evs[o'], fd)
    requires Undisturbed(n, evs, o + 1, k, fd) && Undisturbed(n, evs, o' + 1, k, fd)
    ensures o == o'
  {
    assert Resets(n, evs[o], fd) && Resets(n, evs[o'], fd);
  }

  lemma EndsOpen(n: nat, evs: seq<Event>, k: nat)
    requires k < |evs| && EndsOne(n, evs, k)
    ensures IsOpen(n, evs, k, evs[k].fd)
  {
    var fd := evs[k].fd;
    var r: nat :| r < k && EndsGet(n, evs, r, k);
    AwaitingIsOpen(n, evs, r, fd);
    var o: nat :| o < r && Opens(n, evs[o], fd) && Undisturbed(n, evs, o + 1, r, fd);
    assert Undisturbed(n, evs, o + 1, k, fd);
  }

  /** What ends is recorded as the events have it. */
  lemma FoundRecords(n: nat, evs: seq<Event>, k: nat, m: Mark, c: Conn, gap: Option<nat>, f: Found)
    requires k < |evs| && MarkIs(n, evs, k, evs[k].fd, m, c) && m.recvs != [] && c.Ok(c.recvs[|c.recvs| - 1])
    requires f == Found(m.open, m.send.value, m.recvs, k)
    requires if evs[k].Send? then gap.Some? && c.recvs[|c.recvs| - 1] + gap.value == evs[k].t
             else evs[k].Close? && gap.None?
    ensures Lies(n, evs, f) && Records(n, evs, f, c.done, Finished(c, gap))
  {
  }

  // ----- all descriptors -----

  predicate FitsAt(n: nat, evs: seq<Event>, k: nat, fd: nat, om: Option<Mark>, oc: Option<Conn>)
    requires k <= |evs|
  {
    && (om.Some? <==> oc.Some?)
    && if om.Some? then MarkIs(n, evs, k, fd, om.value, oc.value) else !IsOpen(n, evs, k, fd)
  }

  predicate Marked(n: nat, evs: seq<Event>, k: nat, marks: seq<Option<Mark>>, conns: seq<Option<Conn>>)
    requires k <= |evs|
  {
    && |marks| == |conns| == n
    && forall fd: nat :: fd < n ==> FitsAt(n, evs, k, fd, marks[fd], conns[fd])
  }

  lemma FitsOn(n: nat, evs: seq<Event>, k: nat, fd: nat, om: Option<Mark>, oc: Option<Conn>)
    requires k < |evs| && FitsAt(n, evs, k, fd, om, oc) && evs[k].fd != fd
    ensures FitsAt(n, evs, k + 1, fd, om, oc)
  {
    if om.Some? {
      MarkStays(n, evs, k, fd, om.value, oc.value);
    } else {
      OpenNext(n, evs, k, fd);
    }
  }

  /** An event moves one descriptor's mark at most. */
  lemma OneMark(n: nat, evs: seq<Event>, k: nat, marks: seq<Option<Mark>>, conns: seq<Option<Conn>>,
                marks': seq<Option<Mark>>, conns': seq<Option<Conn>>)
    requires k < |evs| && Marked(n, evs, k, marks, conns) && |marks'| == |conns'| == n
    requires forall fd: nat :: fd < n && fd != evs[k].fd ==> marks'[fd] == marks[fd] && conns'[fd] == conns[fd]
    requires 0 <= evs[k].fd < n ==> FitsAt(n, evs, k + 1, evs[k].fd, marks'[evs[k].fd], conns'[evs[k].fd])
    ensures Marked(n, evs, k + 1, marks', conns')
  {
    forall fd: nat | fd < n ensures FitsAt(n, evs, k + 1, fd, marks'[fd], conns'[fd]) {
      if fd != evs[k].fd {
        FitsOn(n, evs, k, fd, marks[fd], conns[fd]);
      }
    }
  }

  // ----- the log -----

  predicate LoggedAt(n: nat, evs: seq<Event>, found: seq<Found>, log: seq<Exchange>, i: nat)
    requires i < |found| == |log|
  {
    && Lies(n, evs, found[i]) && EndsOne(n, evs, found[i].end)
    && Records(n, evs, found[i], CountOf(found[..i], found[i].open), log[i])
  }

  predicate IsFound(found: seq<Found>, e: nat) { exists f <- found :: f.end == e }

  predicate AllLogged(n: nat, evs: seq<Event>, found: seq<Found>, log: seq<Exchange>) {
    |found| == |log| && forall i: nat :: i < |found| ==> LoggedAt(n, evs, found, log, i)
  }

  predicate InOrder(found: seq<Found>, k: nat) {
    && (forall i: nat :: i < |found| ==> found[i].end < k)
    && forall i, j :: 0 <= i < j < |found| ==> found[i].end < found[j].end
  }

  predicate NoneMissed(n: nat, evs: seq<Event>, k: nat, found: seq<Found>)
    requires k <= |evs|
  {
    forall e: nat :: e < k && EndsOne(n, evs, e) ==> IsFound(found, e)
  }

  /** The log's exchanges in order, and each event that ends one is there. */
  predicate Logged(n: nat, evs: seq<Event>, k: nat, found: seq<Found>, log: seq<Exchange>)
    requires k <= |evs|
  {
    AllLogged(n, evs, found, log) && InOrder(found, k) && NoneMissed(n, evs, k, found)
  }

  lemma LoggedStill(n: nat, evs: seq<Event>, found: seq<Found>, log: seq<Exchange>, i: nat, f: Found, x: Exchange)
    requires i < |found| == |log| && LoggedAt(n, evs, found, log, i)
    ensures LoggedAt(n, evs, found + [f], log + [x], i)
  {
    assert (found + [f])[..i] == found[..i];
  }

  lemma LoggedLast(n: nat, evs: seq<Event>, found: seq<Found>, log: seq<Exchange>, f: Found, x: Exchange)
    requires |found| == |log| && Lies(n, evs, f) && EndsOne(n, evs, f.end)
    requires Records(n, evs, f, CountOf(found, f.open), x)
    ensures LoggedAt(n, evs, found + [f], log + [x], |found|)
  {
    assert (found + [f])[..|found|] == found;
  }

  lemma AllLoggedMore(n: nat, evs: seq<Event>, found: seq<Found>, log: seq<Exchange>, f: Found, x: Exchange)
    requires AllLogged(n, evs, found, log) && Lies(n, evs, f) && EndsOne(n, evs, f.end)
    requires Records(n, evs, f, CountOf(found, f.open), x)
    ensures AllLogged(n, evs, found + [f], log + [x])
  {
    forall i: nat | i < |found| + 1 ensures LoggedAt(n, evs, found + [f], log + [x], i) {
      if i < |found| {
        LoggedStill(n, evs, found, log, i, f, x);
      } else {
        LoggedLast(n, evs, found, log, f, x);
      }
    }
  }

  lemma NoneMissedMore(n: nat, evs: seq<Event>, k: nat, found: seq<Found>, f: Found, found': seq<Found>)
    requires k < |evs| && NoneMissed(n, evs, k, found) && f.end == k && found' == found + [f]
    ensures NoneMissed(n, evs, k + 1, found')
  {
    forall e: nat | e < k + 1 && EndsOne(n, evs, e) ensures IsFound(found', e) {
      assert f in found';
      if e < k {
        var g :| g in found && g.end == e;
        assert g in found';
      }
    }
  }

  lemma LoggedMore(n: nat, evs: seq<Event>, k: nat, found: seq<Found>, log: seq<Exchange>, f: Found, x: Exchange)
    requires k < |evs| && Logged(n, evs, k, found, log) && EndsOne(n, evs, k)
    requires Lies(n, evs, f) && f.end == k && Records(n, evs, f, CountOf(found, f.open), x)
    ensures Logged(n, evs, k + 1, found + [f], log + [x])
  {
    AllLoggedMore(n, evs, found, log, f, x);
    NoneMissedMore(n, evs, k, found, f, found + [f]);
  }

  lemma LoggedOn(n: nat, evs: seq<Event>, k: nat, found: seq<Found>, log: seq<Exchange>)
    requires k < |evs| && Logged(n, evs, k, found, log) && !EndsOne(n, evs, k)
    ensures Logged(n, evs, k + 1, found, log)
  {
  }

  // ----- the places of a connection's exchanges -----

  lemma CountMore(found: seq<Found>, f: Found, open: nat)
    ensures CountOf(found + [f], open) == CountOf(found, open) + if f.open == open then 1 else 0
  {
    assert (found + [f])[..|found|] == found;
  }

  lemma {:induction false} NoneOf(found: seq<Found>, open: nat)
    requires forall f <- found :: f.open != open
    ensures CountOf(found, open) == 0
  {
    if found != [] {
      NoneOf(found[..|found| - 1], open);
    }
  }

  /** Each connection's count is that of its exchanges so far. */
  predicate Placed(found: seq<Found>, marks: seq<Option<Mark>>, conns: seq<Option<Conn>>) {
    && |marks| == |conns|
    && forall fd: nat :: fd < |marks| && marks[fd].Some? && conns[fd].Some? ==>
         conns[fd].value.done == CountOf(found, marks[fd].value.open)
  }

  // ----- one event -----

  predicate Known(n: nat, evs: seq<Event>, k: nat, h: History, marks: seq<Option<Mark>>, found: seq<Found>)
    requires k <= |evs|
  {
    && HistoryOk(h) && Marked(n, evs, k, marks, h.conns)
    && Logged(n, evs, k, found, h.log) && Placed(found, marks, h.conns)
  }

  /** What a send or close ends on a connection is in the log, and its place is counted. */
  lemma EndedLogged(n: nat, evs: seq<Event>, k: nat, m: Mark, c: Conn, gap: Option<nat>, found: seq<Found>,
                    log: seq<Exchange>)
    returns (found': seq<Found>)
    requires k < |evs| && MarkIs(n, evs, k, evs[k].fd, m, c)
    requires c.recvs != [] ==> c.Ok(c.recvs[|c.recvs| - 1])
    requires Logged(n, evs, k, found, log) && c.done == CountOf(found, m.open)
    requires evs[k].Send? || evs[k].Close?
    requires c.recvs != [] ==>
      if evs[k].Send? then gap.Some? && c.recvs[|c.recvs| - 1] + gap.value == evs[k].t else gap.None?
    ensures Logged(n, evs, k + 1, found', log + Ended(c, gap))
    ensures CountOf(found', m.open) == c.done + |Ended(c, gap)|
    ensures forall open: nat :: open != m.open ==> CountOf(found', open) == CountOf(found, open)
  {
    EndsIff(n, evs, k, m, c);
    if m.recvs == [] {
      found' := found;
      LoggedOn(n, evs, k, found, log);
      assert log + Ended(c, gap) == log;
    } else {
      var f := Found(m.open, m.send.value, m.recvs, k);
      found' := found + [f];
      FoundRecords(n, evs, k, m, c, gap, f);
      LoggedMore(n, evs, k, found, log, f, Finished(c, gap));
      forall open: nat ensures CountOf(found', open) == CountOf(found, open) + if m.open == open then 1 else 0 {
        CountMore(found, f, open);
      }
    }
  }

  /** Only one connection's count grows, and it is that connection's alone. */
  lemma PlacedMore(n: nat, evs: seq<Event>, k: nat, found: seq<Found>, marks: seq<Option<Mark>>,
                   conns: seq<Option<Conn>>, fd: nat, found': seq<Found>, om: Option<Mark>, oc: Option<Conn>)
    requires k <= |evs| && Marked(n, evs, k, marks, conns) && Placed(found, marks, conns) && fd < n && marks[fd].Some?
    requires forall open: nat :: open != marks[fd].value.open ==> CountOf(found', open) == CountOf(found, open)
    requires om.Some? && oc.Some? ==> oc.value.done == CountOf(found', om.value.open)
    ensures Placed(found', marks[fd := om], conns[fd := oc])
  {
    forall i: nat | i < n && i != fd && marks[i].Some? && conns[i].Some?
      ensures conns[i].value.done == CountOf(found', marks[i].value.open)
    {
      assert FitsAt(n, evs, k, i, marks[i], conns[i]) && FitsAt(n, evs, k, fd, marks[fd], conns[fd]);
      assert evs[marks[i].value.open].fd == i && evs[marks[fd].value.open].fd == fd;
    }
  }

  /** A connected descriptor's mark and connection change, and the log may grow by its exchange. */
  lemma ChangeKnown(n: nat, evs: seq<Event>, k: nat, h: History, marks: seq<Option<Mark>>, found: seq<Found>, fd: nat,
                    om: Option<Mark>, oc: Option<Conn>, h': History, found': seq<Found>)
    requires k < |evs| && Known(n, evs, k, h, marks, found) && evs[k].fd == fd < n && marks[fd].Some?
    requires FitsAt(n, evs, k + 1, fd, om, oc) && HistoryOk(h') && h'.conns == h.conns[fd := oc]
    requires Logged(n, evs, k + 1, found', h'.log)
    requires om.Some? ==> oc.value.done == CountOf(found', om.value.open)
    requires forall open: nat :: open != marks[fd].value.open ==> CountOf(found', open) == CountOf(found, open)
    ensures Known(n, evs, k + 1, h', marks[fd := om], found')
  {
    OneMark(n, evs, k, marks, h.conns, marks[fd := om], h'.conns);
    PlacedMore(n, evs, k, found, marks, h.conns, fd, found', om, oc);
  }

  lemma MarkAt(n: nat, evs: seq<Event>, k: nat, h: History, marks: seq<Option<Mark>>, found: seq<Found>, fd: nat)
    returns (m: Mark, c: Conn)
    requires k < |evs| && Known(n, evs, k, h, marks, found) && Tracked(h, fd)
    ensures fd < n && marks[fd] == Some(m) && h.conns[fd] == Some(c) && MarkIs(n, evs, k, fd, m, c) && c.Ok(h.clock)
    ensures c.done == CountOf(found, m.open)
  {
    assert FitsAt(n, evs, k, fd, marks[fd], h.conns[fd]);
    ConnIsOk(h, fd, h.clock);
    m, c := marks[fd].value, h.conns[fd].value;
  }

  lemma SendKnown(n: nat, evs: seq<Event>, k: nat, h: History, marks: seq<Option<Mark>>, found: seq<Found>,
                  fd: nat, t: nat)
    returns (marks': seq<Option<Mark>>, found': seq<Found>)
    requires k < |evs| && Known(n, evs, k, h, marks, found) && evs[k] == Send(fd, t) && Tracked(h, fd) && h.clock <= t
    ensures HistoryOk(NoteSend(h, fd, t)) && Known(n, evs, k + 1, NoteSend(h, fd, t), marks', found')
  {
    NoteOk(h, Send(fd, t));
    var m, c := MarkAt(n, evs, k, h, marks, found, fd);
    var m' := m.(send := Some(k), recvs := []);
    found' := EndedLogged(n, evs, k, m, c, GapAt(c, t), found, h.log);
    marks' := marks[fd := Some(m')];
    MarkSent(n, evs, k, fd, m, c);
    ChangeKnown(n, evs, k, h, marks, found, fd, Some(m'), Some(AfterSend(c, t)), NoteSend(h, fd, t), found');
  }

  lemma CloseKnown(n: nat, evs: seq<Event>, k: nat, h: History, marks: seq<Option<Mark>>, found: seq<Found>, fd: nat)
    returns (marks': seq<Option<Mark>>, found': seq<Found>)
    requires k < |evs| && Known(n, evs, k, h, marks, found) && evs[k] == Close(fd) && Tracked(h, fd)
    ensures HistoryOk(NoteClose(h, fd)) && Known(n, evs, k + 1, NoteClose(h, fd), marks', found')
  {
    NoteOk(h, Close(fd));
    var m, c := MarkAt(n, evs, k, h, marks, found, fd);
    found' := EndedLogged(n, evs, k, m, c, None, found, h.log);
    marks' := marks[fd := None];
    OpenNext(n, evs, k, fd);
    ChangeKnown(n, evs, k, h, marks, found, fd, None, None, NoteClose(h, fd), found');
  }

  lemma NotAnEnd(n: nat, evs: seq<Event>, k: nat, h: History, marks: seq<Option<Mark>>, found: seq<Found>,
                 h': History, marks': seq<Option<Mark>>)
    requires k < |evs| && Known(n, evs, k, h, marks, found) && !EndsOne(n, evs, k)
    requires HistoryOk(h') && h'.log == h.log
    requires Marked(n, evs, k + 1, marks', h'.conns) && Placed(found, marks', h'.conns)
    ensures Known(n, evs, k + 1, h', marks', found)
  {
    LoggedOn(n, evs, k, found, h.log);
  }

  function AfterRecv(c: Conn, t: nat, b: int): Conn {
    if b <= 0 || c.first.None? then c else c.(recvs := c.recvs + [t], got := c.got + b, total := c.total + b)
  }

  lemma RecvChanges(h: History, fd: nat, t: nat, b: int, c: Conn)
    requires HistoryOk(h) && Tracked(h, fd) && h.clock <= t && h.conns[fd] == Some(c)
    ensures
      var h' := Note(h, Recv(fd, t, b));
      HistoryOk(h') && h'.log == h.log && h'.conns == h.conns[fd := Some(AfterRecv(c, t, b))]
  {
    NoteOk(h, Recv(fd, t, b));
  }

  lemma RecvMark(n: nat, evs: seq<Event>, k: nat, fd: nat, m: Mark, c: Conn, c': Conn) returns (m': Mark)
    requires k < |evs| && MarkIs(n, evs, k, fd, m, c) && evs[k].Recv? && evs[k].fd == fd
    requires c' == AfterRecv(c, evs[k].t, evs[k].n)
    ensures MarkIs(n, evs, k + 1, fd, m', c') && m'.open == m.open && c'.done == c.done
  {
    if evs[k].n <= 0 || c.first.None? {
      m' := m;
      MarkStays(n, evs, k, fd, m, c);
    } else {
      m' := m.(recvs := m.recvs + [k]);
      MarkGot(n, evs, k, fd, m, c, m', c');
    }
  }

  lemma RecvKnown(n: nat, evs: seq<Event>, k: nat, h: History, marks: seq<Option<Mark>>, found: seq<Found>,
                  fd: nat, t: nat, b: int, h': History)
    returns (marks': seq<Option<Mark>>)
    requires k < |evs| && Known(n, evs, k, h, marks, found)
    requires evs[k] == Recv(fd, t, b) && Tracked(h, fd) && h.clock <= t && h' == Note(h, Recv(fd, t, b))
    ensures HistoryOk(h') && Known(n, evs, k + 1, h', marks', found)
  {
    var m, c := MarkAt(n, evs, k, h, marks, found, fd);
    RecvChanges(h, fd, t, b, c);
    var m' := RecvMark(n, evs, k, fd, m, c, AfterRecv(c, t, b));
    marks' := marks[fd := Some(m')];
    LoggedOn(n, evs, k, found, h.log);
    ChangeKnown(n, evs, k, h, marks, found, fd, Some(m'), Some(AfterRecv(c, t, b)), h', found);
  }

  lemma ConnectKnown(n: nat, evs: seq<Event>, k: nat, h: History, marks: seq<Option<Mark>>, found: seq<Found>, fd: nat)
    returns (marks': seq<Option<Mark>>)
    requires k < |evs| && Known(n, evs, k, h, marks, found) && Opens(n, evs[k], fd)
    ensures HistoryOk(Note(h, evs[k])) && Known(n, evs, k + 1, Note(h, evs[k]), marks', found)
  {
    NoteOk(h, evs[k]);
    var h' := Note(h, evs[k]);
    marks' := marks[fd := Some(Mark(k, None, []))];
    MarkOpened(n, evs, k, fd, h.count);
    OneMark(n, evs, k, marks, h.conns, marks', h'.conns);
    forall f | f in found ensures f.open != k {
      var i: nat :| i < |found| && found[i] == f;
      assert LoggedAt(n, evs, found, h.log, i);
    }
    NoneOf(found, k);
    NotAnEnd(n, evs, k, h, marks, found, h', marks');
  }

  /** An event on a descriptor that is not connected, or a connect to no Internet address. */
  lemma OtherKnown(n: nat, evs: seq<Event>, k: nat, h: History, marks: seq<Option<Mark>>, found: seq<Found>)
    requires k < |evs| && Known(n, evs, k, h, marks, found) && InTime(h, evs[k])
    requires if evs[k].Connect? then !Opens(n, evs[k], evs[k].fd) else !Tracked(h, evs[k].fd)
    ensures HistoryOk(Note(h, evs[k])) && Known(n, evs, k + 1, Note(h, evs[k]), marks, found)
  {
    NoteOk(h, evs[k]);
    var fd := evs[k].fd;
    if 0 <= fd < n {
      assert FitsAt(n, evs, k, fd, marks[fd], h.conns[fd]);
      if marks[fd].Some? {
        MarkStays(n, evs, k, fd, marks[fd].value, h.conns[fd].value);
      } else {
        OpenNext(n, evs, k, fd);
      }
    } else {
      OutOfTable(n, evs, k, fd);
    }
    if EndsOne(n, evs, k) {
      EndsOpen(n, evs, k);
    }
    OneMark(n, evs, k, marks, h.conns, marks, Note(h, evs[k]).conns);
    NotAnEnd(n, evs, k, h, marks, found, Note(h, evs[k]), marks);
  }

  lemma NextKnown(n: nat, evs: seq<Event>, k: nat, h: History, marks: seq<Option<Mark>>, found: seq<Found>)
    returns (marks': seq<Option<Mark>>, found': seq<Found>)
    requires k < |evs| && Known(n, evs, k, h, marks, found) && InTime(h, evs[k])
    ensures HistoryOk(Note(h, evs[k])) && Known(n, evs, k + 1, Note(h, evs[k]), marks', found')
  {
    marks', found' := marks, found;
    var fd := evs[k].fd;
    if evs[k].Connect? && Opens(n, evs[k], fd) {
      marks' := ConnectKnown(n, evs, k, h, marks, found, fd);
    } else if evs[k].Connect? || !Tracked(h, fd) {
      OtherKnown(n, evs, k, h, marks, found);
    } else {
      match evs[k]
      case Send(_, t) => marks', found' := SendKnown(n, evs, k, h, marks, found, fd, t);
      case Recv(_, t, b) => marks' := RecvKnown(n, evs, k, h, marks, found, fd, t, b, Note(h, evs[k]));
      case Close(_) => marks', found' := CloseKnown(n, evs, k, h, marks, found, fd);
    }
  }

  // ----- whole traces -----

  lemma {:induction false} TraceKnown(n: nat, evs: seq<Event>, k: nat, h: History, marks: seq<Option<Mark>>,
                                      found: seq<Found>)
    returns (found': seq<Found>)
    requires k <= |evs| && Known(n, evs, k, h, marks, found) && Monotone(h.clock, evs[k..])
    ensures Logged(n, evs, |evs|, found', Notes(h, evs[k..]).log)
    decreases |evs| - k
  {
    if k == |evs| {
      found' := found;
    } else {
      assert evs[k..][1..] == evs[k + 1..];
      var marks1, found1 := NextKnown(n, evs, k, h, marks, found);
      found' := TraceKnown(n, evs, k + 1, Note(h, evs[k]), marks1, found1);
    }
  }

  /**
   The history's log is what the events say: each exchange in it lies on one connection, from
   the last send before anything came back to the send or close that ended it, with the times,
   bytes and kind of those events; they stand in the order of their ends, and every event that
   ends an exchange has its own.
   */
  lemma LogIsEvents(n: nat, evs: seq<Event>) returns (found: seq<Found>)
    requires Monotone(0, evs)
    ensures Logged(n, evs, |evs|, found, Notes(Start(n), evs).log)
  {
    var marks := seq(n, _ => None);
    assert evs[0..] == evs;
    assert Known(n, evs, 0, Start(n), marks, []);
    found := TraceKnown(n, evs, 0, Start(n), marks, []);
  }

  // ----- the counters -----

  /** What the exchanges of one kind add up to. */
  function Part(handshake: bool, f: Exchange -> int): Exchange -> int {
    (x: Exchange) => if x.handshake == handshake then f(x) else 0
  }

  /** The millisecond of a histogram's bucket; the last one takes everything from 511 ms on. */
  predicate InBucket(ns: nat, b: nat) {
    if b == 511 then ns >= 511_000_000 else b * 1_000_000 <= ns < (b + 1) * 1_000_000
  }

  function TtfbIn(b: nat): Exchange -> int { (x: Exchange) => if InBucket(x.ttfb, b) then 1 else 0 }

  function BodyIn(b: nat): Exchange -> int { (x: Exchange) => if InBucket(x.body, b) then 1 else 0 }

  predicate TimesCounted(a: Agg, log: seq<Exchange>, handshake: bool) {
    && a.n == Sum(Part(handshake, (x: Exchange) => 1), log)
    && a.ttfb == Sum(Part(handshake, (x: Exchange) => x.ttfb), log)
    && a.body == Sum(Part(handshake, (x: Exchange) => x.body), log)
    && a.bytes == Sum(Part(handshake, (x: Exchange) => x.bytes), log)
    && a.gap == Sum(Part(handshake, (x: Exchange) => if x.gap.Some? then x.gap.value else 0), log)
    && a.gapN == Sum(Part(handshake, (x: Exchange) => if x.gap.Some? then 1 else 0), log)
  }

  predicate BucketCounted(a: Agg, log: seq<Exchange>, handshake: bool, b: nat)
    requires b < 512
  {
    && a.hTtfb[b] == Sum(Part(handshake, TtfbIn(b)), log)
    && a.hBody[b] == Sum(Part(handshake, BodyIn(b)), log)
  }

  lemma PartMore(handshake: bool, f: Exchange -> int, front: seq<Exchange>, x: Exchange)
    ensures Sum(Part(handshake, f), front + [x])
         == Sum(Part(handshake, f), front) + if x.handshake == handshake then f(x) else 0
  {
    SumConcat(Part(handshake, f), front, [x]);
  }

  lemma {:induction false} TallyTimes(log: seq<Exchange>, handshake: bool)
    ensures TimesCounted(Tally(log, handshake), log, handshake)
  {
    if log != [] {
      var front, x := log[..|log| - 1], log[|log| - 1];
      TallyTimes(front, handshake);
      assert log == front + [x];
      PartMore(handshake, (x: Exchange) => 1, front, x);
      PartMore(handshake, (x: Exchange) => x.ttfb, front, x);
      PartMore(handshake, (x: Exchange) => x.body, front, x);
      PartMore(handshake, (x: Exchange) => x.bytes, front, x);
      PartMore(handshake, (x: Exchange) => if x.gap.Some? then x.gap.value else 0, front, x);
      PartMore(handshake, (x: Exchange) => if x.gap.Some? then 1 else 0, front, x);
    }
  }

  lemma HitIn(h: Histogram, ns: nat, b: nat)
    requires b < 512
    ensures Hit(h, ns)[b] == h[b] + if InBucket(ns, b) then 1 else 0
  {
  }

  lemma {:induction false} TallyBuckets(log: seq<Exchange>, handshake: bool, b: nat)
    requires b < 512
    ensures BucketCounted(Tally(log, handshake), log, handshake, b)
  {
    if log != [] {
      var front, x := log[..|log| - 1], log[|log| - 1];
      TallyBuckets(front, handshake, b);
      assert log == front + [x];
      PartMore(handshake, TtfbIn(b), front, x);
      PartMore(handshake, BodyIn(b), front, x);
      HitIn(Tally(front, handshake).hTtfb, x.ttfb, b);
      HitIn(Tally(front, handshake).hBody, x.body, b);
    }
  }

  predicate CountedFor(req: Agg, hs: Agg, log: seq<Exchange>) {
    && TimesCounted(req, log, false) && TimesCounted(hs, log, true)
    && forall b: nat :: b < 512 ==> BucketCounted(req, log, false, b) && BucketCounted(hs, log, true, b)
  }

  lemma TallyCounted(log: seq<Exchange>)
    ensures CountedFor(Tally(log, false), Tally(log, true), log)
  {
    TallyTimes(log, false);
    TallyTimes(log, true);
    forall b: nat | b < 512
      ensures BucketCounted(Tally(log, false), log, false, b) && BucketCounted(Tally(log, true), log, true, b)
    {
      TallyBuckets(log, false, b);
      TallyBuckets(log, true, b);
    }
  }

  /**
   The shim's counters, from the events alone: there is a list of exchanges that lie in the
   events as above, and the counters are its sums, requests and handshakes apart.
   */
  lemma CountersAreEvents(n: nat, evs: seq<Event>) returns (log: seq<Exchange>, found: seq<Found>)
    requires Monotone(0, evs)
    ensures Logged(n, evs, |evs|, found, log)
    ensures CountedFor(Steps(Fresh(n), evs).req, Steps(Fresh(n), evs).hs, log)
  {
    StartLaws(n);
    TraceLaws(Fresh(n), Start(n), evs);
    log := Notes(Start(n), evs).log;
    found := LogIsEvents(n, evs);
    TallyCounted(log);
  }

  /** And those it reports at exit, where whatever is connected counts as closed. */
  lemma ReportIsEvents(n: nat, evs: seq<Event>) returns (log: seq<Exchange>, found: seq<Found>)
    requires Monotone(0, evs)
    ensures |Steps(Fresh(n), evs).slots| == n
    ensures Logged(n, evs + Closes(n), |evs + Closes(n)|, found, log)
    ensures
      var final := Flushed(Steps(Fresh(n), evs), n);
      CountedFor(final.req, final.hs, log)
  {
    MonotoneConcat(0, evs, n);
    ExitCounters(n, evs, Steps(Fresh(n), evs), Steps(Fresh(n), evs + Closes(n)));
    log, found := CountersAreEvents(n, evs + Closes(n));
  }
}
