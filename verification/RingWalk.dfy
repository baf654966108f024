/**
 Counting the records of a perf ring buffer after the fact: variable-length records in a
 circular byte array, each opened by an 8-byte header of type, misc and total size.
 */
module RingWalk {
  import opened Bytes
  import opened Modular

  const SAMPLE: nat := 9
  const THROTTLE: nat := 5
  const HEADER: nat := 8

  function KindOf(b: seq<byte>): nat
    requires |b| >= HEADER
  {
    b[0] as nat + 0x100 * (b[1] as nat) + 0x1_0000 * (b[2] as nat) + 0x100_0000 * (b[3] as nat)
  }

  function SizeOf(b: seq<byte>): nat
    requires |b| >= HEADER
  {
    b[6] as nat + 0x100 * (b[7] as nat)
  }

  /** A fault is a header read across the end of the buffer, where the program has no data. */
  datatype Counts = Counts(samples: nat, throttles: nat) | Fault

  function Seen(kind: nat, wanted: nat): nat { if kind == wanted then 1 else 0 }

  /** The header the walk reads at stream position `tail`, unless the buffer ends inside it. */
  datatype Header = Header(kind: nat, size: nat) | Cut

  function Peek(ring: seq<byte>, tail: nat): Header
    requires |ring| > 0
  {
    var off := tail % |ring|;
    if off + HEADER > |ring| then Cut else Header(KindOf(ring[off..]), SizeOf(ring[off..]))
  }

  /** The walk from `tail` to `head` on any contents, `n` and `thr` records counted so far. */
  function Walk(ring: seq<byte>, tail: nat, head: nat, n: nat, thr: nat): Counts
    requires |ring| > 0
    decreases head - tail
  {
    if tail >= head then Counts(n, thr)
    else match Peek(ring, tail)
      case Cut => Fault
      case Header(kind, size) =>
        if size == 0 then Counts(n, thr)
        else Walk(ring, tail + size, head, n + Seen(kind, SAMPLE), thr + Seen(kind, THROTTLE))
  }

  /** Where the walk starts: overwritten bytes are skipped. */
  function From(tail: nat, head: nat, size: nat): nat {
    if head - tail > size then head - size else tail
  }

  /** The mapped control page and its data area. */
  class PerfRing {
    var dataHead: nat
    var dataTail: nat
    const data: array<byte>

    constructor (data: array<byte>)
      ensures this.data == data && dataHead == dataTail == 0
    {
      this.data := data;
      dataHead, dataTail := 0, 0;
    }

    method ReadHeader(tail: nat) returns (h: Header)
      requires data.Length > 0
      ensures h == Peek(data[..], tail)
    {
      var off := tail % data.Length;
      if off + HEADER > data.Length {
        return Cut;
      }
      var b := data[off..];
      assert b == data[..][off..];
      h := Header(KindOf(b), SizeOf(b));
    }

    method SamplerCount() returns (counts: Counts)
      requires data.Length > 0 && dataTail <= dataHead
      modifies this`dataTail
      ensures counts == Walk(data[..], From(old(dataTail), dataHead, data.Length), dataHead, 0, 0)
      ensures dataTail == dataHead
    {
      var size := data.Length;
      var tail := dataTail;
      var n, thr := 0, 0;
      if dataHead - tail > size {
        tail := dataHead - size;
      }
      ghost var start, ring := tail, data[..];
      while tail < dataHead
        invariant Walk(ring, tail, dataHead, n, thr) == Walk(ring, start, dataHead, 0, 0)
        decreases dataHead - tail
      {
        var h := ReadHeader(tail);
        if h.Cut? {
          dataTail := dataHead;
          return Fault;
        }
        if h.size == 0 {
          break;
        }
        if h.kind == SAMPLE {
          n := n + 1;
        } else if h.kind == THROTTLE {
          thr := thr + 1;
        }
        tail := tail + h.size;
      }
      dataTail := dataHead;
      counts := Counts(n, thr);
    }
  }

  // ----- what the producer writes -----

  /** A record names its own size, a positive multiple of 8. */
  predicate WellFormed(r: seq<byte>) {
    |r| >= HEADER && |r| % 8 == 0 && SizeOf(r) == |r|
  }

  function Length(records: seq<seq<byte>>): nat {
    if records == [] then 0 else |records[0]| + Length(records[1..])
  }

  /** How many of the records are of the wanted kind. */
  function Count(records: seq<seq<byte>>, wanted: nat): nat
    requires forall r <- records :: WellFormed(r)
  {
    if records == [] then 0
    else
      assert WellFormed(records[0]);
      Seen(KindOf(records[0]), wanted) + Count(records[1..], wanted)
  }

  function Put(ring: seq<byte>, pos: nat, r: seq<byte>): (ring': seq<byte>)
    requires |ring| > 0
    ensures |ring'| == |ring|
  {
    seq(|ring|, k requires 0 <= k < |ring| =>
      if (k - pos) % |ring| < |r| then r[(k - pos) % |ring|] else ring[k])
  }

  function PutAll(ring: seq<byte>, pos: nat, records: seq<seq<byte>>): (ring': seq<byte>)
    requires |ring| > 0
    ensures |ring'| == |ring|
    decreases |records|
  {
    if records == [] then ring
    else PutAll(Put(ring, pos, records[0]), pos + |records[0]|, records[1..])
  }

  /** The byte of stream position `p`. */
  function At(ring: seq<byte>, p: int): byte
    requires |ring| > 0
  {
    ring[p % |ring|]
  }

  predicate Stored(ring: seq<byte>, pos: nat, r: seq<byte>)
    requires |ring| > 0
  {
    forall k :: 0 <= k < |r| ==> At(ring, pos + k) == r[k]
  }

  /** A write fills its own positions and spares the ones written shortly before. */
  lemma PutAt(ring: seq<byte>, pos: nat, r: seq<byte>, p: int)
    requires 0 < |ring| && |r| <= |ring| && pos + |r| - |ring| <= p < pos + |r|
    ensures At(Put(ring, pos, r), p) == if pos <= p then r[p - pos] else At(ring, p)
  {
    SubMod(p, pos, |ring|);
    if pos <= p {
      Below(|ring|, p - pos);
    } else {
      Shift(p - pos, |ring|, 1);
      Below(|ring|, p - pos + |ring|);
    }
  }

  lemma PutStored(ring: seq<byte>, pos: nat, r: seq<byte>)
    requires 0 < |ring| && |r| <= |ring|
    ensures Stored(Put(ring, pos, r), pos, r)
  {
    forall k | 0 <= k < |r| ensures At(Put(ring, pos, r), pos + k) == r[k] {
      PutAt(ring, pos, r, pos + k);
    }
  }

  /** Later records leave one alone while everything written since fits the buffer. */
  lemma {:induction false} PutAllKeeps(ring: seq<byte>, pos: nat, r: seq<byte>, next: nat, records: seq<seq<byte>>)
    requires |ring| > 0 && Stored(ring, pos, r)
    requires pos + |r| <= next && next + Length(records) <= pos + |ring|
    ensures Stored(PutAll(ring, next, records), pos, r)
    decreases |records|
  {
    if records != [] {
      var ring' := Put(ring, next, records[0]);
      forall k | 0 <= k < |r| ensures At(ring', pos + k) == r[k] {
        PutAt(ring, next, records[0], pos + k);
      }
      PutAllKeeps(ring', pos, r, next + |records[0]|, records[1..]);
    }
  }

  lemma AlignedOffset(tail: nat, size: nat)
    requires size > 0 && size % 8 == 0 && tail % 8 == 0
    ensures tail % size + HEADER <= size
  {
    var q, m := tail / size, size / 8;
    assert tail == size * q + tail % size;
    assert size * q == 8 * (m * q);
  }

  /** What is read at the place of stored bytes is what their first eight spell. */
  lemma HeaderRead(ring: seq<byte>, pos: nat, r: seq<byte>)
    requires |ring| > 0 && |ring| % 8 == 0 && pos % 8 == 0
    requires |r| >= HEADER && Stored(ring, pos, r)
    ensures Peek(ring, pos) == Header(KindOf(r), SizeOf(r))
  {
    var off, size := pos % |ring|, |ring|;
    AlignedOffset(pos, size);
    forall k | 0 <= k < HEADER ensures ring[off + k] == r[k] {
      Wrapped(pos, k, size);
      assert At(ring, pos + k) == r[k];
    }
    assert forall k | 0 <= k < HEADER :: ring[off..][k] == ring[off + k];
  }

  lemma Wrapped(pos: nat, k: nat, size: nat)
    requires size > 0 && pos % size + k < size
    ensures (pos + k) % size == pos % size + k
  {
    assert pos == size * (pos / size) + pos % size;
    Shift(pos % size + k, size, pos / size);
    Below(size, pos % size + k);
  }

  /** Reading from `tail` on, the headers found are those of `records`, one after another. */
  predicate Visits(ring: seq<byte>, tail: nat, records: seq<seq<byte>>)
    requires |ring| > 0 && forall r <- records :: WellFormed(r)
    decreases |records|
  {
    records == [] ||
    (assert WellFormed(records[0]);
     && Peek(ring, tail) == Header(KindOf(records[0]), |records[0]|)
     && Visits(ring, tail + |records[0]|, records[1..]))
  }

  lemma FirstVisited(ring: seq<byte>, tail: nat, r: seq<byte>, rest: seq<seq<byte>>)
    requires |ring| > 0 && |ring| % 8 == 0 && tail % 8 == 0
    requires WellFormed(r) && |r| + Length(rest) <= |ring|
    ensures Peek(PutAll(Put(ring, tail, r), tail + |r|, rest), tail) == Header(KindOf(r), |r|)
  {
    PutStored(ring, tail, r);
    VisitedAfter(Put(ring, tail, r), tail, r, rest);
  }

  lemma VisitedAfter(ring: seq<byte>, tail: nat, r: seq<byte>, rest: seq<seq<byte>>)
    requires |ring| > 0 && |ring| % 8 == 0 && tail % 8 == 0
    requires WellFormed(r) && |r| + Length(rest) <= |ring| && Stored(ring, tail, r)
    ensures Peek(PutAll(ring, tail + |r|, rest), tail) == Header(KindOf(r), |r|)
  {
    PutAllKeeps(ring, tail, r, tail + |r|, rest);
    HeaderRead(PutAll(ring, tail + |r|, rest), tail, r);
  }

  lemma {:induction false} WrittenAreVisited(ring: seq<byte>, tail: nat, records: seq<seq<byte>>)
    requires |ring| > 0 && |ring| % 8 == 0 && tail % 8 == 0
    requires forall r <- records :: WellFormed(r)
    requires Length(records) <= |ring|
    ensures Visits(PutAll(ring, tail, records), tail, records)
    decreases |records|
  {
    if records != [] {
      var r, rest := records[0], records[1..];
      assert WellFormed(r) && (tail + |r|) % 8 == 0;
      FirstVisited(ring, tail, r, rest);
      assert forall x <- rest :: x in records;
      WrittenAreVisited(Put(ring, tail, r), tail + |r|, rest);
    }
  }

  lemma {:induction false} WalkVisits(ring: seq<byte>, tail: nat, records: seq<seq<byte>>, n: nat, thr: nat)
    requires |ring| > 0 && (forall r <- records :: WellFormed(r)) && Visits(ring, tail, records)
    ensures Walk(ring, tail, tail + Length(records), n, thr)
         == Counts(n + Count(records, SAMPLE), thr + Count(records, THROTTLE))
    decreases |records|
  {
    if records != [] {
      var r := records[0];
      assert WellFormed(r);
      WalkVisits(ring, tail + |r|, records[1..], n + Seen(KindOf(r), SAMPLE), thr + Seen(KindOf(r), THROTTLE));
    }
  }

  /**
   When the unread records fit the buffer, the walk visits each of them and nothing else,
   never faults, stops at the head and returns the true counts.
   */
  lemma WalkExact(ring: seq<byte>, tail: nat, records: seq<seq<byte>>)
    requires |ring| > 0 && |ring| % 8 == 0 && tail % 8 == 0
    requires forall r <- records :: WellFormed(r)
    requires Length(records) <= |ring|
    ensures
      var head := tail + Length(records);
      Walk(PutAll(ring, tail, records), From(tail, head, |ring|), head, 0, 0)
      == Counts(Count(records, SAMPLE), Count(records, THROTTLE))
  {
    WrittenAreVisited(ring, tail, records);
    WalkVisits(PutAll(ring, tail, records), tail, records, 0, 0);
  }

  // ----- starting behind overwritten records -----

  lemma {:induction false} PutAllConcat(ring: seq<byte>, pos: nat, a: seq<seq<byte>>, b: seq<seq<byte>>)
    requires |ring| > 0
    ensures PutAll(ring, pos, a + b) == PutAll(PutAll(ring, pos, a), pos + Length(a), b)
    decreases |a|
  {
    if a == [] {
      assert a + b == b;
    } else {
      assert (a + b)[1..] == a[1..] + b;
      PutAllConcat(Put(ring, pos, a[0]), pos + |a[0]|, a[1..], b);
    }
  }

  lemma {:induction false} LengthConcat(a: seq<seq<byte>>, b: seq<seq<byte>>)
    ensures Length(a + b) == Length(a) + Length(b)
  {
    if a == [] {
      assert a + b == b;
    } else {
      assert (a + b)[1..] == a[1..] + b;
      LengthConcat(a[1..], b);
    }
  }

  lemma {:induction false} CountConcat(a: seq<seq<byte>>, b: seq<seq<byte>>, wanted: nat)
    requires forall r <- a + b :: WellFormed(r)
    ensures (forall r <- a :: WellFormed(r)) && (forall r <- b :: WellFormed(r))
    ensures Count(a + b, wanted) == Count(a, wanted) + Count(b, wanted)
  {
    assert (forall r <- a :: r in a + b) && (forall r <- b :: r in a + b);
    if a == [] {
      assert a + b == b;
    } else {
      assert (a + b)[1..] == a[1..] + b;
      assert forall r <- a[1..] + b :: r in a + b;
      CountConcat(a[1..], b, wanted);
    }
  }

  /** All records are well-formed and of sizes that are multiples of `n`. */
  predicate AllSized(records: seq<seq<byte>>, n: nat)
    requires n > 0
  {
    forall r <- records :: WellFormed(r) && |r| % n == 0
  }

  lemma {:induction false} LengthMultiple(records: seq<seq<byte>>, n: nat)
    requires n > 0 && AllSized(records, n)
    ensures Length(records) % n == 0
  {
    if records != [] {
      assert records[0] in records && forall r <- records[1..] :: r in records;
      LengthMultiple(records[1..], n);
      SumMultiple(|records[0]|, Length(records[1..]), n);
    }
  }

  lemma SumMultiple(a: nat, b: nat, n: nat)
    requires n > 0 && a % n == 0 && b % n == 0
    ensures (a + b) % n == 0
  {
    var p, q := a / n, b / n;
    assert a + b == n * (p + q);
    assert (n * (p + q)) % n == 0 by { Below(n, 0); Shift(0, n, p + q); }
  }
}
