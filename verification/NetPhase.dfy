/**
 The socket shim that splits a connection's life into server turnaround, body and client
 gap. The class is the shim's global state and hooks; each hook is specified by a function
 on the state's value, on which the accounting laws are proved in `NetPhaseLaws`.
 */
module NetPhase {
  const MAXFD: nat := 65536
  const HB: nat := 512
  const TWO_64: nat := 0x1_0000_0000_0000_0000
  const TWO_32: nat := 0x1_0000_0000

  datatype Phase = Idle | Sent | Receiving

  datatype Slot = Slot(sock: bool, phase: Phase, tls: bool, exchanges: nat,
                       tSend: nat, tFirst: nat, tLast: nat, bytes: nat)

  const CLEARED := Slot(false, Idle, false, 0, 0, 0, 0, 0)

  type Histogram = h: seq<nat> | |h| == HB witness seq(HB, _ => 0)

  datatype Agg = Agg(n: nat, ttfb: nat, body: nat, gap: nat, gapN: nat, bytes: nat,
                     hTtfb: Histogram, hBody: Histogram)

  datatype State = State(slots: seq<Slot>, req: Agg, hs: Agg, tFirstSend: nat, tLastRecv: nat, conns: nat)

  /** Unsigned 64-bit subtraction: it wraps when it underflows. */
  function Sub(a: nat, b: nat): nat {
    if a >= b then a - b else (a - b) % TWO_64
  }

  /** 1 ms buckets, the last one open-ended. */
  function Bucket(ns: nat): (b: nat)
    ensures b < HB
  {
    if ns / 1_000_000 < HB then ns / 1_000_000 else HB - 1
  }

  function Hit(h: Histogram, ns: nat): Histogram {
    h[Bucket(ns) := h[Bucket(ns)] + 1]
  }

  function Ttfb(s: Slot): nat { Sub(s.tFirst, s.tSend) }

  function Body(s: Slot): nat { Sub(s.tLast, s.tFirst) }

  function Counted(a: Agg, s: Slot, tNext: nat, hasNext: bool): Agg {
    a.(n := a.n + 1, ttfb := a.ttfb + Ttfb(s), body := a.body + Body(s), bytes := a.bytes + s.bytes,
       hTtfb := Hit(a.hTtfb, Ttfb(s)), hBody := Hit(a.hBody, Body(s)),
       gap := if hasNext then a.gap + Sub(tNext, s.tLast) else a.gap,
       gapN := if hasNext then a.gapN + 1 else a.gapN)
  }

  predicate Handshake(s: Slot) { s.exchanges == 0 && s.tls }

  predicate Live(st: State, fd: int) { 0 <= fd < |st.slots| && st.slots[fd].sock }

  function Closing(st: State, fd: int, tNext: nat, hasNext: bool): State
    requires 0 <= fd < |st.slots|
  {
    var s := st.slots[fd];
    if s.phase != Receiving then st
    else
      var s' := s.(exchanges := (s.exchanges + 1) % TWO_32, phase := Idle, bytes := 0);
      var st' := st.(slots := st.slots[fd := s']);
      if Handshake(s) then st'.(hs := Counted(st.hs, s, tNext, hasNext))
      else st'.(req := Counted(st.req, s, tNext, hasNext))
  }

  function Sending(st: State, fd: int, t: nat): State {
    if !Live(st, fd) then st
    else
      var c := Closing(st, fd, t, true);
      c.(slots := c.slots[fd := c.slots[fd].(tSend := t, phase := Sent)],
         tFirstSend := if c.tFirstSend == 0 then t else c.tFirstSend)
  }

  function Received(st: State, fd: int, t: nat, n: int): State {
    if !Live(st, fd) || n <= 0 || st.slots[fd].phase == Idle then st
    else
      var s := st.slots[fd];
      var first := if s.phase == Sent then t else s.tFirst;
      st.(slots := st.slots[fd := s.(tFirst := first, phase := Receiving, tLast := t, bytes := s.bytes + n)],
          tLastRecv := if t > st.tLastRecv then t else st.tLastRecv)
  }

  /** `port` is -1 for an address that is not an Internet one. */
  function Connecting(st: State, fd: int, port: int): State {
    if 0 <= fd < |st.slots| && port >= 0
    then st.(slots := st.slots[fd := CLEARED.(sock := true, tls := port == 443)], conns := st.conns + 1)
    else st
  }

  function Closed(st: State, fd: int): State {
    if !Live(st, fd) then st
    else
      var c := Closing(st, fd, 0, false);
      c.(slots := c.slots[fd := c.slots[fd].(sock := false)])
  }

  /** From the first send to the last receive, as it is reported. */
  function Window(st: State): nat {
    if st.tLastRecv > st.tFirstSend then st.tLastRecv - st.tFirstSend else 0
  }

  /** The exchanges still open at exit are counted, descriptor by descriptor. */
  function Flushed(st: State, upTo: nat): State
    requires upTo <= |st.slots|
    ensures |Flushed(st, upTo).slots| == |st.slots| && Window(Flushed(st, upTo)) == Window(st)
  {
    if upTo == 0 then st
    else
      var st' := Flushed(st, upTo - 1);
      if st'.slots[upTo - 1].sock then Closing(st', upTo - 1, 0, false) else st'
  }

  function ZeroAgg(): Agg {
    Agg(0, 0, 0, 0, 0, 0, seq(HB, _ => 0), seq(HB, _ => 0))
  }

  /** The state of a process that has opened no socket yet, with a table of `n` descriptors. */
  function Fresh(n: nat): State {
    State(seq(n, _ => CLEARED), ZeroAgg(), ZeroAgg(), 0, 0, 0)
  }

  class Shim {
    const slots: array<Slot>
    var req: Agg
    var hs: Agg
    var tFirstSend: nat
    var tLastRecv: nat
    var conns: nat

    function Model(): State
      reads this, slots
    {
      State(slots[..], req, hs, tFirstSend, tLastRecv, conns)
    }

    constructor ()
      ensures Model() == Fresh(65536) && slots.Length == 65536 && fresh(slots)
    {
      slots := new Slot[MAXFD](_ => CLEARED);
      req, hs := ZeroAgg(), ZeroAgg();
      tFirstSend, tLastRecv, conns := 0, 0, 0;
      new;
      assert slots[..] == seq(MAXFD, _ => CLEARED);
    }

    method CloseExchange(fd: nat, tNext: nat, hasNext: bool)
      requires fd < slots.Length
      modifies this, slots
      ensures Model() == Closing(old(Model()), fd, tNext, hasNext)
    {
      var s := slots[fd];
      if s.phase != Receiving {
        return;
      }
      if s.exchanges == 0 && s.tls {
        hs := Counted(hs, s, tNext, hasNext);
      } else {
        req := Counted(req, s, tNext, hasNext);
      }
      slots[fd] := s.(exchanges := (s.exchanges + 1) % TWO_32, phase := Idle, bytes := 0);
    }

    method OnSend(fd: int, t: nat)
      modifies this, slots
      ensures Model() == Sending(old(Model()), fd, t)
    {
      if fd < 0 || fd >= slots.Length || !slots[fd].sock {
        return;
      }
      CloseExchange(fd, t, true);
      slots[fd] := slots[fd].(tSend := t, phase := Sent);
      if tFirstSend == 0 {
        tFirstSend := t;
      }
    }

    method OnRecv(fd: int, t: nat, n: int)
      modifies this, slots
      ensures Model() == Received(old(Model()), fd, t, n)
    {
      if fd < 0 || fd >= slots.Length || !slots[fd].sock || n <= 0 {
        return;
      }
      if slots[fd].phase == Idle {
        return;
      }
      if slots[fd].phase == Sent {
        slots[fd] := slots[fd].(tFirst := t, phase := Receiving);
      }
      slots[fd] := slots[fd].(tLast := t, bytes := slots[fd].bytes + n);
      if t > tLastRecv {
        tLastRecv := t;
      }
    }

    method Connect(fd: int, port: int)
      modifies this, slots
      ensures Model() == Connecting(old(Model()), fd, port)
    {
      if 0 <= fd < slots.Length && port >= 0 {
        slots[fd] := CLEARED;
        slots[fd] := slots[fd].(sock := true, tls := port == 443);
        conns := conns + 1;
      }
    }

    method Close(fd: int)
      modifies this, slots
      ensures Model() == Closed(old(Model()), fd)
    {
      if 0 <= fd < slots.Length && slots[fd].sock {
        CloseExchange(fd, 0, false);
        slots[fd] := slots[fd].(sock := false);
      }
    }

    method Fini() returns (window: nat)
      modifies this, slots
      ensures Model() == if old(conns) == 0 then old(Model()) else Flushed(old(Model()), slots.Length)
      ensures window == Window(old(Model()))
    {
      if conns != 0 {
        for fd := 0 to slots.Length
          invariant Model() == Flushed(old(Model()), fd)
        {
          if slots[fd].sock {
            CloseExchange(fd, 0, false);
          }
        }
      }
      window := if tLastRecv > tFirstSend then tLastRecv - tFirstSend else 0;
    }
  }
}
