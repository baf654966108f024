/**
 The streaming body counter: it skips an HTTP message's header section (section 2.1 of
 RFC 9112), whose closing CRLFCRLF may straddle any number of reads, and counts the rest.
 */
module HeaderScan {
  import opened Bytes

  const CR: byte := 13
  const LF: byte := 10
  const TERMINATOR: seq<byte> := [CR, LF, CR, LF]

  // ----- what is to be computed -----

  /** A terminator ends just before position `e`. */
  predicate EndsAt(s: seq<byte>, e: int) {
    4 <= e <= |s| && s[e - 4..e] == [13, 10, 13, 10]
  }

  predicate FirstEnd(s: seq<byte>, e: int) {
    EndsAt(s, e) && forall e' | 4 <= e' < e :: !EndsAt(s, e')
  }

  predicate NoEnd(s: seq<byte>) {
    forall e | 4 <= e <= |s| :: !EndsAt(s, e)
  }

  /** The bytes after the first terminator; 0 when there is none. */
  ghost function BodyLength(s: seq<byte>): nat {
    if e :| FirstEnd(s, e) then |s| - e else 0
  }

  lemma {:induction false} SomeFirstEnd(s: seq<byte>, e: int) returns (f: int)
    requires EndsAt(s, e)
    ensures FirstEnd(s, f)
    decreases e
  {
    if e' :| 4 <= e' < e && EndsAt(s, e') {
      f := SomeFirstEnd(s, e');
    } else {
      f := e;
    }
  }

  /** `BodyLength` is determined by the stream: the first end is unique, and none means 0. */
  lemma BodyLengthIs(s: seq<byte>, e: int)
    ensures FirstEnd(s, e) ==> BodyLength(s) == |s| - e
    ensures NoEnd(s) ==> BodyLength(s) == 0
  {
  }

  // ----- the automaton -----

  function Transition(state: nat, b: byte): nat {
    if state == 0 && b == CR then 1
    else if state == 1 && b == LF then 2
    else if state == 2 && b == CR then 3
    else if state == 3 && b == LF then 4
    else if b == CR then 1
    else 0
  }

  predicate Suffix(s: seq<byte>, j: nat) {
    j <= 4 && j <= |s| && s[|s| - j..] == TERMINATOR[..j]
  }

  /** `k` is the length of the longest beginning of the terminator that `s` ends with. */
  predicate Longest(s: seq<byte>, k: nat) {
    Suffix(s, k) && forall j: nat | k < j <= 4 :: !Suffix(s, j)
  }

  lemma SuffixStep(s: seq<byte>, b: byte, j: nat)
    requires j < 4
    ensures Suffix(s + [b], j + 1) <==> Suffix(s, j) && b == TERMINATOR[j]
  {
    var t := s + [b];
    if j <= |s| {
      assert t[|t| - (j + 1)..] == s[|s| - j..] + [b];
      assert TERMINATOR[..j + 1] == TERMINATOR[..j] + [TERMINATOR[j]];
      if t[|t| - (j + 1)..] == TERMINATOR[..j + 1] {
        assert s[|s| - j..] == t[|t| - (j + 1)..][..j] == TERMINATOR[..j + 1][..j] == TERMINATOR[..j];
      }
    }
  }

  /** Which beginnings of the terminator end which others. */
  lemma SuffixNest(s: seq<byte>, k: nat, j: nat)
    requires Suffix(s, k) && j <= k
    ensures Suffix(s, j) <==> TERMINATOR[..k][k - j..] == TERMINATOR[..j]
  {
    assert s[|s| - k..][k - j..] == s[|s| - j..];
  }

  lemma Beginnings()
    ensures TERMINATOR[..0] == [] && TERMINATOR[..1] == [CR] && TERMINATOR[..2] == [CR, LF]
    ensures TERMINATOR[..3] == [CR, LF, CR] && TERMINATOR[..4] == TERMINATOR
  {
  }

  /** Where the longest match is `k`, the lengths that match at all. */
  predicate Matches(k: nat, j: nat) { j == 0 || j == k || (k == 3 && j == 1) }

  lemma ShorterMatches(s: seq<byte>, k: nat, j: nat)
    requires Suffix(s, k) && k < 4 && j <= k
    ensures Suffix(s, j) <==> Matches(k, j)
  {
    Beginnings();
    SuffixNest(s, k, j);
    assert TERMINATOR[..k][k..] == [] && TERMINATOR[..k][0..] == TERMINATOR[..k];
    if k == 2 && j == 1 {
      assert TERMINATOR[..2][1..] == [LF];
    } else if k == 3 && j == 1 {
      assert TERMINATOR[..3][2..] == [CR];
    } else if k == 3 && j == 2 {
      assert TERMINATOR[..3][1..][0] == LF;
    }
  }

  lemma LongerMatch(s: seq<byte>, k: nat, b: byte, j: nat)
    requires Longest(s, k) && k < 4 && j < 4
    ensures Suffix(s + [b], j + 1) <==> j <= k && Matches(k, j) && b == TERMINATOR[j]
  {
    SuffixStep(s, b, j);
    if j <= k {
      ShorterMatches(s, k, j);
    }
  }

  /** The table: from `k`, the next state is the longest match the byte can make. */
  lemma TableExact(k: nat, b: byte, j: nat)
    requires k < 4 && j < 4
    ensures j <= k && Matches(k, j) && b == TERMINATOR[j] ==> j + 1 <= Transition(k, b)
    ensures j + 1 == Transition(k, b) ==> j <= k && Matches(k, j) && b == TERMINATOR[j]
  {
    assert TERMINATOR[0] == TERMINATOR[2] == CR && TERMINATOR[1] == TERMINATOR[3] == LF;
  }

  /** The automaton tracks the longest suffix exactly, without ever rereading a byte. */
  lemma TransitionExact(s: seq<byte>, k: nat, b: byte)
    requires Longest(s, k) && k < 4
    ensures Longest(s + [b], Transition(k, b))
  {
    var k' := Transition(k, b);
    if k' > 0 {
      LongerMatch(s, k, b, k' - 1);
      TableExact(k, b, k' - 1);
    }
    forall j: nat | k' < j <= 4 ensures !Suffix(s + [b], j) {
      LongerMatch(s, k, b, j - 1);
      TableExact(k, b, j - 1);
    }
  }

  lemma EndIsSuffix(s: seq<byte>, e: nat)
    requires e <= |s|
    ensures EndsAt(s, e) <==> Suffix(s[..e], 4)
  {
    assert TERMINATOR[..4] == TERMINATOR;
    if e >= 4 {
      assert s[..e][e - 4..] == s[e - 4..e];
    }
  }

  lemma EndsAtPrefix(s: seq<byte>, t: seq<byte>, e: int)
    requires e <= |s|
    ensures EndsAt(s + t, e) <==> EndsAt(s, e)
  {
    if 4 <= e {
      assert (s + t)[e - 4..e] == s[e - 4..e];
    }
  }

  // ----- the counter -----

  /** The three variables a connection threads through its reads. */
  class BodyCounter {
    var bytes: nat
    var headersDone: bool
    var hdrState: nat
    /** Everything received so far. */
    ghost var stream: seq<byte>

    ghost predicate Valid()
      reads this
    {
      if headersDone then exists e :: FirstEnd(stream, e) && bytes == |stream| - e
      else bytes == 0 && hdrState < 4 && Longest(stream, hdrState) && NoEnd(stream)
    }

    constructor ()
      ensures Valid() && stream == [] && bytes == 0 && !headersDone
    {
      bytes, headersDone, hdrState, stream := 0, false, 0, [];
    }

    method CountBody(data: seq<byte>)
      requires Valid()
      modifies this
      ensures Valid() && stream == old(stream) + data
      ensures bytes == BodyLength(stream)
    {
      ghost var before := stream;
      stream := before + data;
      if headersDone {
        bytes := bytes + |data|;
        Appended(before, data, bytes);
        return;
      }
      assert before + data[..0] == before;
      for i := 0 to |data|
        invariant !headersDone && bytes == 0 && hdrState < 4 && stream == before + data
        invariant Longest(before + data[..i], hdrState)
        invariant NoEnd(before + data[..i])
      {
        ghost var seen := before + data[..i];
        assert seen + [data[i]] == before + data[..i + 1];
        TransitionExact(seen, hdrState, data[i]);
        NoEndStep(seen, data[i]);
        hdrState := Transition(hdrState, data[i]);
        if hdrState == 4 {
          headersDone := true;
          bytes := bytes + (|data| - (i + 1));
          Found(before + data[..i + 1], data[i + 1..]);
          assert before + data[..i + 1] + data[i + 1..] == stream;
          return;
        }
      }
      assert before + data[..|data|] == stream;
      BodyLengthIs(stream, 0);
    }
  }

  lemma NoEndStep(s: seq<byte>, b: byte)
    requires NoEnd(s)
    ensures forall e | 4 <= e <= |s| :: !EndsAt(s + [b], e)
    ensures EndsAt(s + [b], |s| + 1) <==> Suffix(s + [b], 4)
    ensures !Suffix(s + [b], 4) ==> NoEnd(s + [b])
  {
    forall e | 4 <= e <= |s| ensures !EndsAt(s + [b], e) {
      EndsAtPrefix(s, [b], e);
    }
    EndIsSuffix(s + [b], |s| + 1);
    assert (s + [b])[..|s| + 1] == s + [b];
  }

  /** A terminator completed by the last byte read is the stream's first one. */
  lemma Found(seen: seq<byte>, rest: seq<byte>)
    requires seen != [] && Suffix(seen, 4)
    requires forall e | 4 <= e < |seen| :: !EndsAt(seen, e)
    ensures FirstEnd(seen + rest, |seen|) && BodyLength(seen + rest) == |rest|
  {
    EndIsSuffix(seen, |seen|);
    assert seen[..|seen|] == seen;
    forall e | 4 <= e <= |seen| ensures EndsAt(seen + rest, e) <==> EndsAt(seen, e) {
      EndsAtPrefix(seen, rest, e);
    }
    BodyLengthIs(seen + rest, |seen|);
  }

  lemma Appended(before: seq<byte>, data: seq<byte>, bytes: nat)
    requires exists e :: FirstEnd(before, e) && bytes == |before| - e + |data|
    ensures exists e :: FirstEnd(before + data, e) && bytes == |before + data| - e
    ensures bytes == BodyLength(before + data)
  {
    var e :| FirstEnd(before, e) && bytes == |before| - e + |data|;
    FirstEndStays(before, data, e);
    BodyLengthIs(before + data, e);
  }

  lemma FirstEndStays(before: seq<byte>, data: seq<byte>, e: int)
    requires FirstEnd(before, e)
    ensures FirstEnd(before + data, e)
  {
    forall e' | 4 <= e' <= e ensures EndsAt(before + data, e') <==> EndsAt(before, e') {
      EndsAtPrefix(before, data, e');
    }
  }

  function Joined(chunks: seq<seq<byte>>): seq<byte> {
    if chunks == [] then [] else Joined(chunks[..|chunks| - 1]) + chunks[|chunks| - 1]
  }

  /** A whole connection: however the reads cut the stream, the count is that of the stream. */
  method ReadAll(chunks: seq<seq<byte>>) returns (bytes: nat)
    ensures bytes == BodyLength(Joined(chunks))
  {
    var counter := new BodyCounter();
    BodyLengthIs([], 0);
    for i := 0 to |chunks|
      invariant counter.Valid() && counter.stream == Joined(chunks[..i])
      invariant counter.bytes == BodyLength(counter.stream)
      invariant fresh(counter)
    {
      assert chunks[..i + 1][..i] == chunks[..i];
      counter.CountBody(chunks[i]);
    }
    assert chunks[..|chunks|] == chunks;
    bytes := counter.bytes;
  }
}
