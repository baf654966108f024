/** What the decoder answers when a line's first payload was cut short. */
module CovCuts {
  import opened Bytes
  import opened Options
  import opened CovDecode
  import Base64
  import ZeroRuns

  /** The outcome once the lines are joined. */
  function Answer(text: string, want: nat): Result {
    match Base64.Decode(text)
    case None => Err(BadBase64)
    case Some(rle) =>
      match ZeroRuns.Decoded(rle)
      case None => Err(TruncatedRun)
      case Some(out) => if |out| != want then Err(WrongLength) else Ok(out)
  }

  lemma AnswerIs(logs: seq<Log>, raw: seq<byte>, payloads: seq<string>)
    requires Counted(logs, raw, payloads) && FirstsCut(logs, payloads)
    ensures forall i :: 0 <= i < |payloads| ==> i in Merge(logs)
    ensures Assemble(Merge(logs), Want(logs), Stop(logs)) == Answer(JoinTo(Merge(logs), |payloads|), |raw|)
  {
    CutFirstsShow(logs, payloads);
  }

  lemma FewerBytes(text: string, n: nat)
    requires |text| < Base64.Width(n) && Base64.Decode(text).Some?
    ensures |Base64.Decode(text).value| < n
  {
    Base64.DecodeWithin(text);
  }

  lemma ShorterCodeDiffers(rle: seq<byte>, tokens: seq<ZeroRuns.Token>)
    requires (forall t <- tokens :: ZeroRuns.Legal(t)) && ZeroRuns.Shortest(tokens)
    requires |rle| < |ZeroRuns.Code(tokens)|
    ensures ZeroRuns.Decoded(rle) != Some(ZeroRuns.Expand(tokens))
  {
    if ZeroRuns.Decoded(rle).Some? {
      var other := ZeroRuns.OnlyCodesDecode(rle);
      assert |ZeroRuns.Code(other)| < |ZeroRuns.Code(tokens)|;
    }
  }

  /** A text shorter than that of a shortest coding decodes to something else, if it does. */
  lemma ShorterTextDiffers(text: string, raw: seq<byte>, tokens: seq<ZeroRuns.Token>, code: seq<byte>)
    requires (forall t <- tokens :: ZeroRuns.Legal(t)) && ZeroRuns.Shortest(tokens)
    requires code == ZeroRuns.Code(tokens) && raw == ZeroRuns.Expand(tokens) && |text| < |Base64.Encode(code)|
    ensures Answer(text, |raw|) != Ok(raw)
  {
    Base64.EncodeWidth(code);
    if Base64.Decode(text).Some? {
      FewerBytes(text, |code|);
      ShorterCodeDiffers(Base64.Decode(text).value, tokens);
    }
  }

  /**
   Where the dump is coded with the longest runs and first payloads are at most cut short, the
   decoder gives the dump back if and only if every first payload is whole.
   */
  lemma CutOutcome(logs: seq<Log>, raw: seq<byte>, payloads: seq<string>, tokens: seq<ZeroRuns.Token>)
    requires (forall t <- tokens :: ZeroRuns.Legal(t)) && PrintsAs(raw, payloads, tokens) && ZeroRuns.Shortest(tokens)
    requires Counted(logs, raw, payloads) && FirstsCut(logs, payloads)
    ensures Assemble(Merge(logs), Want(logs), Stop(logs)) == Ok(raw) <==> FirstsWhole(logs, payloads)
  {
    if FirstsWhole(logs, payloads) {
      WholeFirstsDecode(logs, raw, payloads);
    } else {
      AnswerIs(logs, raw, payloads);
      CutFirstsShow(logs, payloads);
      ShorterTextDiffers(JoinTo(Merge(logs), |payloads|), raw, tokens, ZeroRuns.Code(tokens));
    }
  }

  /** A dump of one line whose first payload is a single character of the alphabet fails. */
  lemma OneCharacterLost(logs: seq<Log>, raw: seq<byte>, payload: string)
    requires |payload| > 0 && Counted(logs, raw, [payload]) && First(logs, 0) == Some(payload[..1])
    ensures Assemble(Merge(logs), Want(logs), Stop(logs))
         == if Base64.FromChar(payload[0]).Some? then Err(BadBase64) else if raw == [] then Ok([]) else Err(WrongLength)
  {
    var text := payload[..1];
    AnswerIs(logs, raw, [payload]);
    MergeFirst(logs, 0);
    assert JoinTo(Merge(logs), 0) == "" && JoinTo(Merge(logs), 1) == text;
    OneCharacter(text);
    assert ZeroRuns.Decoded([]) == Some([]);
  }

  lemma OneCharacter(text: string)
    requires |text| == 1
    ensures Base64.Decode(text) == if Base64.FromChar(text[0]).Some? then None else Some([])
  {
    assert text[1..] == [];
    assert Base64.FromChar(Base64.PAD) == None;
    var start := Base64.Reader([], Base64.Empty, 0);
    assert Base64.Read(start, text[1..]) == Some([]);
    if Base64.FromChar(text[0]).Some? {
      var one := start.Take(Base64.FromChar(text[0]).value);
      assert one.group.One? && Base64.Read(one, text[1..]) == None;
    } else if text[0] == Base64.PAD {
      assert start.Chars() == 0;
    }
  }

  // ----- an answer that is wrong without an error -----

  /** Two logs of a dump of two lines: the first log shows the first line without its last group. */
  function CutLogs(p0: string, p1: string, size: nat): seq<Log>
    requires |p0| >= 4
  {
    [[Line(0, p0[..4])], [Begin(size), Line(0, p0), Line(1, p1), End(2)]]
  }

  lemma FirstOfTwo(a: Log, b: Log, i: nat)
    ensures First([a, b], i) == if FirstIn(a, i).Some? then FirstIn(a, i) else FirstIn(b, i)
    ensures Want([a, b]) == if BeginOf(b).Some? then BeginOf(b) else BeginOf(a)
    ensures Stop([a, b]) == if EndOf(b).Some? then EndOf(b) else EndOf(a)
  {
    var logs := [a, b];
    assert logs[..1] == [a] && logs[..1][..0] == [];
    assert First(logs[..1], i) == FirstIn(a, i) && Want(logs[..1]) == BeginOf(a) && Stop(logs[..1]) == EndOf(a);
  }

  lemma Entries(e: Entry, rest: Log, i: nat)
    ensures FirstIn([e] + rest, i) == if e.Line? && e.index == i then Some(e.payload) else FirstIn(rest, i)
    ensures BeginOf([e] + rest) == if e.Begin? then Some(e.raw) else BeginOf(rest)
    ensures EndOf([e] + rest) == if e.End? then Some(e.lines) else EndOf(rest)
  {
    assert ([e] + rest)[1..] == rest;
  }

  lemma SecondLog(p0: string, p1: string, size: nat)
    ensures
      var b := [Begin(size), Line(0, p0), Line(1, p1), End(2)];
      FirstIn(b, 1) == Some(p1) && BeginOf(b) == Some(size) && EndOf(b) == Some(2)
  {
    var b3: Log := [End(2)];
    var b2 := [Line(1, p1)] + b3;
    var b1 := [Line(0, p0)] + b2;
    assert [Begin(size), Line(0, p0), Line(1, p1), End(2)] == [Begin(size)] + b1;
    Entries(End(2), [], 1);
    assert [End(2)] + [] == b3;
    Entries(Line(1, p1), b3, 1);
    Entries(Line(0, p0), b2, 1);
    Entries(Begin(size), b1, 1);
  }

  lemma CutLogsShow(p0: string, p1: string, size: nat)
    requires |p0| >= 4
    ensures
      var logs := CutLogs(p0, p1, size);
      && First(logs, 0) == Some(p0[..4]) && First(logs, 1) == Some(p1)
      && Want(logs) == Some(size) && Stop(logs) == Some(2)
  {
    var a: Log, b: Log := [Line(0, p0[..4])], [Begin(size), Line(0, p0), Line(1, p1), End(2)];
    SecondLog(p0, p1, size);
    FirstOfTwo(a, b, 0);
    FirstOfTwo(a, b, 1);
    assert a[1..] == [] && FirstIn(a[1..], 1) == None;
  }

  /** Two groups on the first line; the cut drops the second of them. */
  lemma LinesOf(a: seq<byte>, b: seq<byte>, rest: seq<byte>, p0: string, p1: string)
    requires |a| == |b| == 3 && p0 == Base64.Encode(a + b) && p1 == Base64.Encode(rest)
    ensures |p0| >= 4 && p0 + p1 == Base64.Encode(a + b + rest) && p0[..4] + p1 == Base64.Encode(a + rest)
  {
    Base64.EncodeConcat(a + b, rest);
    Base64.EncodeConcat(a, b);
    Base64.EncodeConcat(a, rest);
    Base64.EncodeWidth(a);
  }

  lemma TwoParts(p: string, q: string)
    ensures Joined([p, q]) == p + q
  {
    assert [p, q][..1] == [p] && [p][..0] == [] && Joined([p]) == "" + p;
  }

  lemma TwoLines(lines: map<nat, string>, p: string, q: string)
    requires 0 in lines && 1 in lines && lines[0] == p && lines[1] == q
    ensures JoinTo(lines, 2) == p + q
  {
    assert JoinTo(lines, 0) == "" && JoinTo(lines, 1) == "" + p;
  }

  lemma CutJoins(p0: string, p1: string, size: nat)
    requires |p0| >= 4
    ensures
      var lines := Merge(CutLogs(p0, p1, size));
      0 in lines && 1 in lines && JoinTo(lines, 2) == p0[..4] + p1
  {
    var logs := CutLogs(p0, p1, size);
    CutLogsShow(p0, p1, size);
    MergeFirst(logs, 0);
    MergeFirst(logs, 1);
    TwoLines(Merge(logs), p0[..4], p1);
  }

  const DUMP: seq<ZeroRuns.Token> :=
    [ZeroRuns.Literal(1), ZeroRuns.Zeros(5), ZeroRuns.Literal(2), ZeroRuns.Literal(1), ZeroRuns.Zeros(65794),
     ZeroRuns.Literal(1), ZeroRuns.Zeros(16843009)]

  const MISREAD: seq<ZeroRuns.Token> :=
    [ZeroRuns.Literal(1), ZeroRuns.Zeros(66053), ZeroRuns.Literal(2), ZeroRuns.Literal(1), ZeroRuns.Literal(1),
     ZeroRuns.Zeros(16842753), ZeroRuns.Literal(1), ZeroRuns.Literal(1)]

  /** The coding of `DUMP`: the two groups of the first line, and the second line. */
  const GROUP0: seq<byte> := [1, 0, 5]
  const GROUP1: seq<byte> := [0, 0, 0]
  const REST: seq<byte> := [2, 1, 0, 2, 1, 1, 0, 1, 0, 1, 1, 1, 1]

  function Part(t: ZeroRuns.Token): seq<byte>
    requires ZeroRuns.Legal(t)
  {
    match t
    case Literal(b) => [b]
    case Zeros(n) => [0] + Word32Bytes(n)
  }

  /** One token more in front of a coding and of what it stands for. */
  lemma InFront(first: ZeroRuns.Token, rest: seq<ZeroRuns.Token>)
    requires ZeroRuns.Legal(first) && forall t <- rest :: ZeroRuns.Legal(t)
    ensures forall t <- [first] + rest :: ZeroRuns.Legal(t)
    ensures ZeroRuns.Code([first] + rest) == Part(first) + ZeroRuns.Code(rest)
    ensures |ZeroRuns.Expand([first] + rest)| == ZeroRuns.Skip(first) + |ZeroRuns.Expand(rest)|
  {
    assert ([first] + rest)[1..] == rest;
  }

  lemma Three(a: ZeroRuns.Token, b: ZeroRuns.Token, c: ZeroRuns.Token)
    requires ZeroRuns.Legal(a) && ZeroRuns.Legal(b) && ZeroRuns.Legal(c)
    ensures ZeroRuns.Code([a, b, c]) == Part(a) + Part(b) + Part(c)
    ensures |ZeroRuns.Expand([a, b, c])| == ZeroRuns.Skip(a) + ZeroRuns.Skip(b) + ZeroRuns.Skip(c)
  {
    InFront(c, []);
    assert [c] + [] == [c] && [b] + [c] == [b, c] && [a] + [b, c] == [a, b, c];
    InFront(b, [c]);
    InFront(a, [b, c]);
  }

  lemma {:induction false} Together(x: seq<ZeroRuns.Token>, y: seq<ZeroRuns.Token>)
    requires (forall t <- x :: ZeroRuns.Legal(t)) && forall t <- y :: ZeroRuns.Legal(t)
    ensures ZeroRuns.Code(x + y) == ZeroRuns.Code(x) + ZeroRuns.Code(y)
    ensures |ZeroRuns.Expand(x + y)| == |ZeroRuns.Expand(x)| + |ZeroRuns.Expand(y)|
  {
    if x == [] {
      assert x + y == y;
    } else {
      assert ZeroRuns.Legal(x[0]) && x == [x[0]] + x[1..] && x + y == [x[0]] + (x[1..] + y);
      Together(x[1..], y);
      InFront(x[0], x[1..]);
      InFront(x[0], x[1..] + y);
    }
  }

  lemma Codes(a: ZeroRuns.Token, b: ZeroRuns.Token, c: ZeroRuns.Token, code: seq<byte>)
    requires ZeroRuns.Legal(a) && ZeroRuns.Legal(b) && ZeroRuns.Legal(c) && code == Part(a) + Part(b) + Part(c)
    ensures (forall t <- [a, b, c] :: ZeroRuns.Legal(t)) && ZeroRuns.Code([a, b, c]) == code
  {
    Three(a, b, c);
  }

  lemma DumpParts()
    ensures
      var x := [ZeroRuns.Literal(1), ZeroRuns.Zeros(5), ZeroRuns.Literal(2)];
      (forall t <- x :: ZeroRuns.Legal(t)) && ZeroRuns.Code(x) == [1, 0, 5, 0, 0, 0, 2]
    ensures
      var y := [ZeroRuns.Literal(1), ZeroRuns.Zeros(65794), ZeroRuns.Literal(1)];
      (forall t <- y :: ZeroRuns.Legal(t)) && ZeroRuns.Code(y) == [1, 0, 2, 1, 1, 0, 1]
    ensures
      var z := [ZeroRuns.Zeros(16843009)];
      (forall t <- z :: ZeroRuns.Legal(t)) && ZeroRuns.Code(z) == [0, 1, 1, 1, 1]
  {
    assert Word32Bytes(16843009) == [1, 1, 1, 1] && Word32Bytes(65794) == [2, 1, 1, 0]
        && Word32Bytes(5) == [5, 0, 0, 0];
    Codes(ZeroRuns.Literal(1), ZeroRuns.Zeros(5), ZeroRuns.Literal(2), [1, 0, 5, 0, 0, 0, 2]);
    Codes(ZeroRuns.Literal(1), ZeroRuns.Zeros(65794), ZeroRuns.Literal(1), [1, 0, 2, 1, 1, 0, 1]);
    InFront(ZeroRuns.Zeros(16843009), []);
    assert [ZeroRuns.Zeros(16843009)] + [] == [ZeroRuns.Zeros(16843009)];
  }

  lemma DumpSize()
    ensures |ZeroRuns.Expand(DUMP)| == 16908812
  {
    var x := [ZeroRuns.Literal(1), ZeroRuns.Zeros(5), ZeroRuns.Literal(2)];
    var y := [ZeroRuns.Literal(1), ZeroRuns.Zeros(65794), ZeroRuns.Literal(1)];
    var z := [ZeroRuns.Zeros(16843009)];
    Three(x[0], x[1], x[2]);
    Three(y[0], y[1], y[2]);
    InFront(z[0], []);
    assert z == [z[0]] + [] && DUMP == x + (y + z);
    Together(y, z);
    Together(x, y + z);
  }

  lemma InThree(x: seq<ZeroRuns.Token>, y: seq<ZeroRuns.Token>, z: seq<ZeroRuns.Token>,
                cx: seq<byte>, cy: seq<byte>, cz: seq<byte>)
    requires (forall t <- x :: ZeroRuns.Legal(t)) && (forall t <- y :: ZeroRuns.Legal(t))
        && forall t <- z :: ZeroRuns.Legal(t)
    requires cx == ZeroRuns.Code(x) && cy == ZeroRuns.Code(y) && cz == ZeroRuns.Code(z)
    ensures (forall t <- x + (y + z) :: ZeroRuns.Legal(t)) && ZeroRuns.Code(x + (y + z)) == cx + (cy + cz)
  {
    Together(y, z);
    Together(x, y + z);
  }

  lemma DumpCode()
    ensures (forall t <- DUMP :: ZeroRuns.Legal(t)) && ZeroRuns.Code(DUMP) == GROUP0 + GROUP1 + REST
  {
    var x := [ZeroRuns.Literal(1), ZeroRuns.Zeros(5), ZeroRuns.Literal(2)];
    var y := [ZeroRuns.Literal(1), ZeroRuns.Zeros(65794), ZeroRuns.Literal(1)];
    var z := [ZeroRuns.Zeros(16843009)];
    DumpParts();
    InThree(x, y, z, [1, 0, 5, 0, 0, 0, 2], [1, 0, 2, 1, 1, 0, 1], [0, 1, 1, 1, 1]);
    assert DUMP == x + (y + z);
  }

  lemma MisreadParts()
    ensures
      var x := [ZeroRuns.Literal(1), ZeroRuns.Zeros(66053), ZeroRuns.Literal(2)];
      (forall t <- x :: ZeroRuns.Legal(t)) && ZeroRuns.Code(x) == [1, 0, 5, 2, 1, 0, 2]
    ensures
      var y := [ZeroRuns.Literal(1), ZeroRuns.Literal(1), ZeroRuns.Zeros(16842753)];
      (forall t <- y :: ZeroRuns.Legal(t)) && ZeroRuns.Code(y) == [1, 1, 0, 1, 0, 1, 1]
    ensures
      var z := [ZeroRuns.Literal(1), ZeroRuns.Literal(1)];
      (forall t <- z :: ZeroRuns.Legal(t)) && ZeroRuns.Code(z) == [1, 1]
  {
    assert Word32Bytes(16842753) == [1, 0, 1, 1] && Word32Bytes(66053) == [5, 2, 1, 0];
    Codes(ZeroRuns.Literal(1), ZeroRuns.Zeros(66053), ZeroRuns.Literal(2), [1, 0, 5, 2, 1, 0, 2]);
    Codes(ZeroRuns.Literal(1), ZeroRuns.Literal(1), ZeroRuns.Zeros(16842753), [1, 1, 0, 1, 0, 1, 1]);
    InFront(ZeroRuns.Literal(1), []);
    InFront(ZeroRuns.Literal(1), [ZeroRuns.Literal(1)]);
    assert [ZeroRuns.Literal(1)] + [] == [ZeroRuns.Literal(1)];
    assert [ZeroRuns.Literal(1)] + [ZeroRuns.Literal(1)] == [ZeroRuns.Literal(1), ZeroRuns.Literal(1)];
  }

  lemma MisreadSize()
    ensures |ZeroRuns.Expand(MISREAD)| == 16908812
  {
    var x := [ZeroRuns.Literal(1), ZeroRuns.Zeros(66053), ZeroRuns.Literal(2)];
    var y := [ZeroRuns.Literal(1), ZeroRuns.Literal(1), ZeroRuns.Zeros(16842753)];
    var z := [ZeroRuns.Literal(1)];
    Three(x[0], x[1], x[2]);
    Three(y[0], y[1], y[2]);
    InFront(z[0], []);
    assert z == [z[0]] + [];
    Together(z, z);
    Together(y, z + z);
    Together(x, y + (z + z));
    assert MISREAD == x + (y + (z + z));
  }

  lemma MisreadCode()
    ensures (forall t <- MISREAD :: ZeroRuns.Legal(t)) && ZeroRuns.Code(MISREAD) == GROUP0 + REST
  {
    var x := [ZeroRuns.Literal(1), ZeroRuns.Zeros(66053), ZeroRuns.Literal(2)];
    var y := [ZeroRuns.Literal(1), ZeroRuns.Literal(1), ZeroRuns.Zeros(16842753)];
    var z := [ZeroRuns.Literal(1), ZeroRuns.Literal(1)];
    MisreadParts();
    InThree(x, y, z, [1, 0, 5, 2, 1, 0, 2], [1, 1, 0, 1, 0, 1, 1], [1, 1]);
    assert MISREAD == x + (y + z);
  }

  /** Behind the first byte: five zeros and a two, or more zeros than that. */
  lemma TheyDiffer()
    ensures ZeroRuns.Expand(DUMP) != ZeroRuns.Expand(MISREAD)
  {
    var rest := DUMP[1..];
    assert rest[0] == ZeroRuns.Zeros(5) && rest[1..][0] == ZeroRuns.Literal(2);
    assert ZeroRuns.Expand(DUMP) == [1] + (ZeroRuns.Zero(5) + ([2] + ZeroRuns.Expand(rest[1..][1..])));
    assert ZeroRuns.Expand(DUMP)[6] == 2;
    var other := MISREAD[1..];
    assert other[0] == ZeroRuns.Zeros(66053);
    assert ZeroRuns.Expand(MISREAD) == [1] + (ZeroRuns.Zero(66053) + ZeroRuns.Expand(other[1..]));
    assert ZeroRuns.Expand(MISREAD)[6] == 0;
  }

  /**
   A dump in its shortest coding, shown whole by the second of two logs and cut by the first:
   the decoder passes every test and answers with as many bytes, and they are wrong.
   */
  lemma WrongBytes() returns (logs: seq<Log>, raw: seq<byte>, payloads: seq<string>, other: seq<byte>)
    ensures (forall t <- DUMP :: ZeroRuns.Legal(t)) && PrintsAs(raw, payloads, DUMP) && ZeroRuns.Shortest(DUMP)
    ensures Counted(logs, raw, payloads) && FirstsCut(logs, payloads)
    ensures Assemble(Merge(logs), Want(logs), Stop(logs)) == Ok(other) && other != raw
  {
    var p0, p1 := Base64.Encode(GROUP0 + GROUP1), Base64.Encode(REST);
    raw, payloads, other := ZeroRuns.Expand(DUMP), [p0, p1], ZeroRuns.Expand(MISREAD);
    DumpSize();
    DumpPrints(p0, p1, raw);
    DumpIsShortest();
    TheyDiffer();
    logs := CutLogs(p0, p1, |raw|);
    CutLogsAnswer(p0, p1, raw);
    MisreadAnswer(p0[..4] + p1);
  }

  lemma DumpPrints(p0: string, p1: string, raw: seq<byte>)
    requires p0 == Base64.Encode(GROUP0 + GROUP1) && p1 == Base64.Encode(REST) && raw == ZeroRuns.Expand(DUMP)
    ensures (forall t <- DUMP :: ZeroRuns.Legal(t)) && PrintsAs(raw, [p0, p1], DUMP)
    ensures |p0| >= 4 && p0[..4] + p1 == Base64.Encode(GROUP0 + REST)
  {
    DumpCode();
    LinesOf(GROUP0, GROUP1, REST, p0, p1);
    TwoParts(p0, p1);
  }

  lemma DumpIsShortest()
    ensures (forall t <- DUMP :: ZeroRuns.Legal(t)) && ZeroRuns.Shortest(DUMP)
  {
    DumpCode();
    assert ZeroRuns.Maximal(DUMP);
    ZeroRuns.MaximalIsShortest(DUMP);
  }

  lemma CutLogsAnswer(p0: string, p1: string, raw: seq<byte>)
    requires |p0| >= 4
    ensures
      var logs := CutLogs(p0, p1, |raw|);
      && Counted(logs, raw, [p0, p1]) && FirstsCut(logs, [p0, p1])
      && Assemble(Merge(logs), Want(logs), Stop(logs)) == Answer(p0[..4] + p1, |raw|)
  {
    var logs := CutLogs(p0, p1, |raw|);
    CutLogsShow(p0, p1, |raw|);
    CutJoins(p0, p1, |raw|);
    AnswerIs(logs, raw, [p0, p1]);
  }

  lemma MisreadAnswer(text: string)
    requires text == Base64.Encode(GROUP0 + REST)
    ensures Answer(text, 16908812) == Ok(ZeroRuns.Expand(MISREAD))
  {
    MisreadCode();
    MisreadSize();
    Base64.RoundTrip(GROUP0 + REST);
    ZeroRuns.DecodeInvertsCode(MISREAD);
  }
}
