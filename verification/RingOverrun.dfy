/** What the ring walk counts when it starts behind overwritten records. */
module RingOverrun {
  import opened Bytes
  import opened RingWalk

  /** The program's counts after the records were written from `tail` on. */
  function Counted(ring: seq<byte>, tail: nat, records: seq<seq<byte>>): Counts
    requires |ring| > 0
  {
    var head := tail + Length(records);
    Walk(PutAll(ring, tail, records), From(tail, head, |ring|), head, 0, 0)
  }

  predicate AtMost(c: Counts, samples: nat, throttles: nat) {
    c.Counts? && c.samples <= samples && c.throttles <= throttles
  }

  lemma CountedIs(ring: seq<byte>, tail: nat, records: seq<seq<byte>>, after: seq<byte>, from: nat, head: nat)
    requires |ring| > 0 && after == PutAll(ring, tail, records)
    requires head == tail + Length(records) && from == From(tail, head, |ring|)
    ensures Counted(ring, tail, records) == Walk(after, from, head, 0, 0)
  {
  }

  lemma WalkOver(after: seq<byte>, from: nat, kept: seq<seq<byte>>, head: nat)
    requires |after| > 0 && AllSized(kept, 8) && Visits(after, from, kept) && head == from + Length(kept)
    ensures Walk(after, from, head, 0, 0) == Counts(Count(kept, SAMPLE), Count(kept, THROTTLE))
  {
    WalkVisits(after, from, kept, 0, 0);
  }

  lemma WalkOn(ring: seq<byte>, from: nat, kept: seq<seq<byte>>, after: seq<byte>, head: nat)
    requires |ring| > 0 && |ring| % 8 == 0 && from % 8 == 0 && AllSized(kept, 8) && Length(kept) <= |ring|
    requires after == PutAll(ring, from, kept) && head == from + Length(kept)
    ensures Walk(after, from, head, 0, 0) == Counts(Count(kept, SAMPLE), Count(kept, THROTTLE))
  {
    WrittenAreVisited(ring, from, kept);
    WalkOver(after, from, kept, head);
  }

  lemma Boundary(tail: nat, lost: seq<seq<byte>>, from: nat)
    requires tail % 8 == 0 && AllSized(lost, 8) && from == tail + Length(lost)
    ensures from % 8 == 0
  {
    LengthMultiple(lost, 8);
  }

  /**
   A walk that starts on a record boundary, because nothing was overwritten or because the
   bytes left begin with a whole record, counts exactly the records from there on, so never
   more than were written.
   */
  lemma SuffixCounted(ring: seq<byte>, tail: nat, lost: seq<seq<byte>>, kept: seq<seq<byte>>, from: nat)
    requires |ring| > 0 && |ring| % 8 == 0 && tail % 8 == 0
    requires AllSized(lost, 8) && AllSized(kept, 8)
    requires from == tail + Length(lost) == From(tail, tail + Length(lost + kept), |ring|)
    ensures Counted(ring, tail, lost + kept) == Counts(Count(kept, SAMPLE), Count(kept, THROTTLE))
  {
    var before := PutAll(ring, tail, lost);
    var after, head := PutAll(before, from, kept), from + Length(kept);
    LengthConcat(lost, kept);
    PutAllConcat(ring, tail, lost, kept);
    CountedIs(ring, tail, lost + kept, after, from, head);
    Boundary(tail, lost, from);
    WalkOn(before, from, kept, after, head);
  }

  lemma SuffixAtMost(lost: seq<seq<byte>>, kept: seq<seq<byte>>)
    requires AllSized(lost + kept, 8) && AllSized(kept, 8)
    ensures AtMost(Counts(Count(kept, SAMPLE), Count(kept, THROTTLE)), Count(lost + kept, SAMPLE),
        Count(lost + kept, THROTTLE))
  {
    CountConcat(lost, kept, SAMPLE);
    CountConcat(lost, kept, THROTTLE);
  }

  lemma SuffixStored(ring: seq<byte>, pos: nat, r: seq<byte>, w: nat)
    requires 0 < |ring| && w <= |r| <= |ring|
    ensures Stored(Put(ring, pos, r), pos + w, r[w..])
  {
    PutStored(ring, pos, r);
    forall k | 0 <= k < |r[w..]| ensures At(Put(ring, pos, r), pos + w + k) == r[w..][k] {
      assert At(Put(ring, pos, r), pos + (w + k)) == r[w + k];
    }
  }

  lemma PutAllAround(ring: seq<byte>, tail: nat, lost: seq<seq<byte>>, kept: seq<seq<byte>>)
    requires |ring| > 0 && kept != []
    ensures
      var pos := tail + Length(lost);
      PutAll(ring, tail, lost + kept) == PutAll(Put(PutAll(ring, tail, lost), pos, kept[0]), pos + |kept[0]|, kept[1..])
  {
    PutAllConcat(ring, tail, lost, kept);
  }

  lemma ReadInside(ring: seq<byte>, pos: nat, r: seq<byte>, w: nat, rest: seq<seq<byte>>)
    requires |ring| > 0 && |ring| % 8 == 0 && (pos + w) % 8 == 0
    requires w + HEADER <= |r| <= |ring| && |r| - w + Length(rest) <= |ring|
    ensures Peek(PutAll(Put(ring, pos, r), pos + |r|, rest), pos + w) == Header(KindOf(r[w..]), SizeOf(r[w..]))
  {
    var ring' := Put(ring, pos, r);
    SuffixStored(ring, pos, r, w);
    PutAllKeeps(ring', pos + w, r[w..], pos + |r|, rest);
    HeaderRead(PutAll(ring', pos + |r|, rest), pos + w, r[w..]);
  }

  /** A start inside a record takes the eight bytes at hand for a header. */
  lemma InsideRead(ring: seq<byte>, tail: nat, lost: seq<seq<byte>>, kept: seq<seq<byte>>, w: nat, from: nat)
    requires |ring| > 0 && |ring| % 8 == 0 && from % 8 == 0 && from == tail + Length(lost) + w
    requires kept != [] && w + HEADER <= |kept[0]| <= |ring| && Length(kept) - w <= |ring|
    ensures Peek(PutAll(ring, tail, lost + kept), from) == Header(KindOf(kept[0][w..]), SizeOf(kept[0][w..]))
  {
    var before, pos := PutAll(ring, tail, lost), tail + Length(lost);
    PutAllAround(ring, tail, lost, kept);
    ReadInside(before, pos, kept[0], w, kept[1..]);
  }

  lemma WalkStops(after: seq<byte>, from: nat, head: nat, kind: nat)
    requires |after| > 0 && from < head && Peek(after, from) == Header(kind, 0)
    ensures Walk(after, from, head, 0, 0) == Counts(0, 0)
  {
  }

  /** If they name no size there, the walk stops with nothing counted. */
  lemma StopsInside(ring: seq<byte>, tail: nat, lost: seq<seq<byte>>, kept: seq<seq<byte>>, w: nat, from: nat)
    requires |ring| > 0 && |ring| % 8 == 0 && from % 8 == 0
    requires kept != [] && 0 < w && w + HEADER <= |kept[0]| <= |ring| && SizeOf(kept[0][w..]) == 0
    requires from == tail + Length(lost) + w == From(tail, tail + Length(lost + kept), |ring|)
    ensures Counted(ring, tail, lost + kept) == Counts(0, 0)
  {
    var after, head := PutAll(ring, tail, lost + kept), tail + Length(lost + kept);
    LengthConcat(lost, kept);
    InsideRead(ring, tail, lost, kept, w, from);
    WalkStops(after, from, head, KindOf(kept[0][w..]));
    CountedIs(ring, tail, lost + kept, after, from, head);
  }

  lemma {:induction false} SplitAt(records: seq<seq<byte>>, off: nat)
    returns (lost: seq<seq<byte>>, kept: seq<seq<byte>>, w: nat)
    requires off <= Length(records)
    ensures records == lost + kept && Length(lost) + w == off
    ensures w == 0 || (kept != [] && w < |kept[0]|)
  {
    if records == [] || off < |records[0]| {
      lost, kept, w := [], records, off;
    } else {
      var l, k, v := SplitAt(records[1..], off - |records[0]|);
      lost, kept, w := [records[0]] + l, k, v;
      assert lost[1..] == l && records == [records[0]] + records[1..];
    }
  }

  // ----- the records of this event -----

  const UNTHROTTLE: nat := 6

  /** The eight bytes at `k` spell a number below 2^48. */
  predicate ShortWord(r: seq<byte>, k: nat)
    requires k + 8 <= |r|
  {
    r[k + 6] == 0 && r[k + 7] == 0
  }

  /**
   A record this event makes: a sample, which holds an instruction pointer, or a throttling
   notice, which holds a time, the event's number and the stream's. The kernel numbers events
   upwards from 1, so the number is short; pointer, time and stream may be anything.
   */
  predicate OfEvent(r: seq<byte>) {
    && |r| >= HEADER
    && if KindOf(r) == SAMPLE then |r| == 16
       else (KindOf(r) == THROTTLE || KindOf(r) == UNTHROTTLE) && |r| == 32 && ShortWord(r, 16)
  }

  predicate AllOfEvent(records: seq<seq<byte>>) {
    forall k :: 0 <= k < |records| ==> OfEvent(records[k])
  }

  lemma Sixteens(records: seq<seq<byte>>)
    requires AllSized(records, 8) && AllOfEvent(records)
    ensures AllSized(records, 16)
  {
    forall r | r in records ensures |r| % 16 == 0 {
      var k :| 0 <= k < |records| && records[k] == r;
    }
  }

  lemma FromMultiple(tail: nat, length: nat, size: nat)
    requires size % 16 == 0 && length % 16 == 0
    ensures tail <= From(tail, tail + length, size) <= tail + length
    ensures (From(tail, tail + length, size) - tail) % 16 == 0
  {
  }

  /** Where the records are cut, seen from the walk's start. */
  lemma CutPoint(records: seq<seq<byte>>, off: nat)
    returns (lost: seq<seq<byte>>, kept: seq<seq<byte>>, w: nat)
    requires AllSized(records, 16) && AllSized(records, 8) && off <= Length(records) && off % 16 == 0
    ensures records == lost + kept && AllSized(lost, 8) && AllSized(kept, 8)
    ensures Length(lost) + w == off && Length(lost) % 16 == 0 && w % 16 == 0
    ensures w == 0 || (kept != [] && w < |kept[0]|)
  {
    lost, kept, w := SplitAt(records, off);
    assert (forall r <- lost :: r in records) && (forall r <- kept :: r in records);
    LengthMultiple(lost, 16);
    DifferenceMultiple(Length(lost), w);
  }

  lemma DifferenceMultiple(a: nat, b: nat)
    requires a % 16 == 0 && (a + b) % 16 == 0
    ensures b % 16 == 0
  {
  }

  /** A cut inside one of this event's records is at the event's number in a notice. */
  lemma CutInside(r: seq<byte>, w: nat)
    requires OfEvent(r) && 0 < w < |r| && w % 16 == 0
    ensures w + HEADER <= |r| && SizeOf(r[w..]) == 0
  {
    assert w == 16 && r[16..][6] == r[22] && r[16..][7] == r[23];
  }

  /** A cut at a record boundary, or at eight bytes that name no size. */
  predicate FloorCut(size: nat, tail: nat, records: seq<seq<byte>>, lost: seq<seq<byte>>, kept: seq<seq<byte>>,
      w: nat) {
    && records == lost + kept && AllSized(lost, 8) && AllSized(kept, 8) && w % 8 == 0
    && From(tail, tail + Length(records), size) == tail + Length(lost) + w
    && (w == 0 || (kept != [] && w + HEADER <= |kept[0]| <= 32 && SizeOf(kept[0][w..]) == 0))
  }

  lemma FloorSuffix(ring: seq<byte>, tail: nat, lost: seq<seq<byte>>, kept: seq<seq<byte>>)
    requires |ring| > 0 && |ring| % 8 == 0 && tail % 8 == 0
    requires AllSized(lost + kept, 8) && AllSized(lost, 8) && AllSized(kept, 8)
    requires From(tail, tail + Length(lost + kept), |ring|) == tail + Length(lost)
    ensures AtMost(Counted(ring, tail, lost + kept), Count(lost + kept, SAMPLE), Count(lost + kept, THROTTLE))
  {
    SuffixCounted(ring, tail, lost, kept, tail + Length(lost));
    SuffixAtMost(lost, kept);
  }

  lemma AlignedCut(tail: nat, lost: seq<seq<byte>>, w: nat, from: nat)
    requires tail % 8 == 0 && AllSized(lost, 8) && w % 8 == 0 && from == tail + Length(lost) + w
    ensures from % 8 == 0
  {
    var pos := tail + Length(lost);
    Boundary(tail, lost, pos);
    Eights(pos, w);
  }

  lemma Eights(a: nat, b: nat)
    requires a % 8 == 0 && b % 8 == 0
    ensures (a + b) % 8 == 0
  {
  }

  lemma FloorInside(ring: seq<byte>, tail: nat, lost: seq<seq<byte>>, kept: seq<seq<byte>>, w: nat)
    requires |ring| >= 32 && |ring| % 8 == 0 && tail % 8 == 0 && AllSized(lost, 8)
    requires From(tail, tail + Length(lost + kept), |ring|) == tail + Length(lost) + w
    requires 0 < w && w % 8 == 0 && kept != [] && w + HEADER <= |kept[0]| <= 32 && SizeOf(kept[0][w..]) == 0
    ensures Counted(ring, tail, lost + kept) == Counts(0, 0)
  {
    var from := tail + Length(lost) + w;
    AlignedCut(tail, lost, w, from);
    StopsInside(ring, tail, lost, kept, w, from);
  }

  lemma FloorAt(ring: seq<byte>, tail: nat, records: seq<seq<byte>>, lost: seq<seq<byte>>, kept: seq<seq<byte>>, w: nat)
    requires |ring| >= 32 && |ring| % 8 == 0 && tail % 8 == 0 && AllSized(records, 8)
    requires FloorCut(|ring|, tail, records, lost, kept, w)
    ensures AtMost(Counted(ring, tail, records), Count(records, SAMPLE), Count(records, THROTTLE))
  {
    if w == 0 {
      FloorSuffix(ring, tail, lost, kept);
    } else {
      FloorInside(ring, tail, lost, kept, w);
    }
  }

  lemma CutOf(size: nat, tail: nat, records: seq<seq<byte>>)
    returns (lost: seq<seq<byte>>, kept: seq<seq<byte>>, w: nat)
    requires size % 16 == 0 && AllSized(records, 8) && AllOfEvent(records)
    ensures FloorCut(size, tail, records, lost, kept, w)
  {
    Sixteens(records);
    LengthMultiple(records, 16);
    FromMultiple(tail, Length(records), size);
    lost, kept, w := CutPoint(records, From(tail, tail + Length(records), size) - tail);
    if w > 0 {
      assert records[|lost|] == kept[0];
      CutInside(kept[0], w);
    }
  }

  /**
   The count is a floor: on the records this event makes, of which the buffer keeps the last
   bytes, the walk counts exactly the records from its start on, or stops with nothing; it
   never faults and never counts more than were written.
   */
  lemma CountIsFloor(ring: seq<byte>, tail: nat, records: seq<seq<byte>>)
    requires |ring| >= 32 && |ring| % 16 == 0 && tail % 8 == 0
    requires AllSized(records, 8) && AllOfEvent(records)
    ensures AtMost(Counted(ring, tail, records), Count(records, SAMPLE), Count(records, THROTTLE))
  {
    var lost, kept, w := CutOf(|ring|, tail, records);
    Half(|ring|);
    FloorAt(ring, tail, records, lost, kept, w);
  }

  lemma Half(n: nat)
    requires n % 16 == 0
    ensures n % 8 == 0
  {
  }

  // ----- the counts, from the bytes alone -----

  /** The first four bytes spell the kind, the lowest first. */
  predicate OfKind(r: seq<byte>, kind: byte) {
    |r| >= 8 && r[0] == kind && r[1] == r[2] == r[3] == 0
  }

  /** A record of a multiple of eight bytes says how many in its seventh byte and the one behind. */
  predicate SaysItsSize(r: seq<byte>) {
    |r| >= 8 && |r| % 8 == 0 && |r| == r[6] as nat + 256 * r[7] as nat
  }

  function HowMany(records: seq<seq<byte>>, kind: byte): nat {
    if records == [] then 0 else HowMany(records[1..], kind) + if OfKind(records[0], kind) then 1 else 0
  }

  lemma KindIs(r: seq<byte>)
    requires |r| >= 8
    ensures KindOf(r) == SAMPLE <==> OfKind(r, 9)
    ensures KindOf(r) == THROTTLE <==> OfKind(r, 5)
  {
  }

  lemma {:induction false} CountsAre(records: seq<seq<byte>>)
    requires forall r <- records :: SaysItsSize(r)
    ensures forall r <- records :: WellFormed(r)
    ensures Count(records, SAMPLE) == HowMany(records, 9) && Count(records, THROTTLE) == HowMany(records, 5)
  {
    if records != [] {
      assert SaysItsSize(records[0]) && forall r <- records[1..] :: r in records;
      KindIs(records[0]);
      CountsAre(records[1..]);
    }
  }

  lemma AllSizedEight(records: seq<seq<byte>>)
    requires forall r <- records :: SaysItsSize(r)
    ensures AllSized(records, 8)
  {
    CountsAre(records);
  }

  /**
   What the buffer still holds of the records is counted by their first four bytes: all of them
   where they fit, and the last of them where those fill it.
   */
  lemma HeldCounted(ring: seq<byte>, tail: nat, lost: seq<seq<byte>>, kept: seq<seq<byte>>)
    requires |ring| > 0 && |ring| % 8 == 0 && tail % 8 == 0
    requires (forall r <- lost :: SaysItsSize(r)) && forall r <- kept :: SaysItsSize(r)
    requires if lost == [] then Length(kept) <= |ring| else Length(kept) == |ring|
    ensures Counted(ring, tail, lost + kept) == Counts(HowMany(kept, 9), HowMany(kept, 5))
  {
    CountsAre(kept);
    AllSizedEight(lost);
    AllSizedEight(kept);
    LengthConcat(lost, kept);
    SuffixCounted(ring, tail, lost, kept, tail + Length(lost));
  }
}
