/**
 Zero-run coding of a coverage dump: a non-zero byte stands for itself, a zero byte opens a
 run of zeros whose length follows as a little-endian 32-bit word.
 */
module ZeroRuns {
  import opened Bytes
  import opened Options

  /** One token of the coded stream. */
  datatype Token = Literal(b: byte) | Zeros(n: nat)

  predicate Legal(t: Token) {
    match t
    case Literal(b) => b != 0
    case Zeros(n) => n < TWO_32
  }

  function Expand(tokens: seq<Token>): seq<byte> {
    if tokens == [] then []
    else match tokens[0]
      case Literal(b) => [b] + Expand(tokens[1..])
      case Zeros(n) => Zero(n) + Expand(tokens[1..])
  }

  function Zero(n: nat): (z: seq<byte>)
    ensures |z| == n && forall b <- z :: b == 0
  {
    seq(n, _ => 0)
  }

  function Code(tokens: seq<Token>): seq<byte>
    requires forall t <- tokens :: Legal(t)
  {
    if tokens == [] then []
    else
      assert Legal(tokens[0]);
      (match tokens[0]
       case Literal(b) => [b]
       case Zeros(n) => [0] + Word32Bytes(n)) + Code(tokens[1..])
  }

  /** What a coded stream stands for; `None` when it ends inside a run's length. */
  function Decoded(rle: seq<byte>): Option<seq<byte>> {
    if rle == [] then Some([])
    else if rle[0] != 0 then Prefixed([rle[0]], Decoded(rle[1..]))
    else if |rle| < 5 then None
    else Prefixed(Zero(Word32(rle[1..5])), Decoded(rle[5..]))
  }

  function Prefixed(a: seq<byte>, rest: Option<seq<byte>>): Option<seq<byte>> {
    match rest
    case None => None
    case Some(b) => Some(a + b)
  }

  /** The decoding loop; it fails where unpacking the run length runs out of bytes. */
  method Decode(rle: seq<byte>) returns (r: Option<seq<byte>>)
    ensures r == Decoded(rle)
  {
    var out: seq<byte> := [];
    var i := 0;
    assert rle[0..] == rle;
    while i < |rle|
      invariant 0 <= i <= |rle|
      invariant Prefixed(out, Decoded(rle[i..])) == Prefixed([], Decoded(rle))
      decreases |rle| - i
    {
      var rest := rle[i..];
      if rle[i] != 0 {
        assert rest[1..] == rle[i + 1..];
        Regroup(out, [rle[i]], Decoded(rle[i + 1..]));
        out := out + [rle[i]];
        i := i + 1;
      } else {
        if i + 1 + 4 > |rle| {
          assert Decoded(rest) == None;
          return None;
        }
        var n := Word32(rle[i + 1..i + 5]);
        assert rest[1..5] == rle[i + 1..i + 5] && rest[5..] == rle[i + 5..];
        Regroup(out, Zero(n), Decoded(rle[i + 5..]));
        out := out + Zero(n);
        i := i + 5;
      }
    }
    assert rle[|rle|..] == [] && out + [] == out;
    assert Decoded(rle).Some? ==> [] + Decoded(rle).value == Decoded(rle).value;
    r := Some(out);
  }

  lemma Regroup(a: seq<byte>, b: seq<byte>, rest: Option<seq<byte>>)
    ensures Prefixed(a + b, rest) == Prefixed(a, Prefixed(b, rest))
  {
    if rest.Some? {
      assert a + b + rest.value == a + (b + rest.value);
    }
  }

  /** Decoding inverts every legal coding, however the zeros were cut into runs. */
  lemma {:induction false} DecodeInvertsCode(tokens: seq<Token>)
    requires forall t <- tokens :: Legal(t)
    ensures Decoded(Code(tokens)) == Some(Expand(tokens))
  {
    if tokens != [] {
      assert Legal(tokens[0]);
      var rest := tokens[1..];
      assert forall t <- rest :: t in tokens;
      DecodeInvertsCode(rest);
      match tokens[0]
      case Literal(b) =>
        assert Code(tokens) == [b] + Code(rest);
        assert Code(tokens)[1..] == Code(rest);
      case Zeros(n) =>
        assert Code(tokens) == [0] + Word32Bytes(n) + Code(rest);
        assert Code(tokens)[1..5] == Word32Bytes(n) && Code(tokens)[5..] == Code(rest);
    }
  }

  /** The four bytes behind a zero byte are the number of zeros, the lowest first. */
  lemma RunDecodes(b0: byte, b1: byte, b2: byte, b3: byte, rest: seq<byte>)
    ensures
      var n := b0 as nat + 0x100 * b1 as nat + 0x1_0000 * b2 as nat + 0x100_0000 * b3 as nat;
      Decoded([0, b0, b1, b2, b3] + rest)
      == if Decoded(rest).None? then None else Some(seq(n, _ => 0) + Decoded(rest).value)
  {
    var rle := [0, b0, b1, b2, b3] + rest;
    assert rle[1..5] == [b0, b1, b2, b3] && rle[5..] == rest;
    Word32Is(b0, b1, b2, b3);
  }

  /** Whatever decodes at all is the coding of some tokens: nothing else gets through. */
  lemma {:induction false} OnlyCodesDecode(rle: seq<byte>) returns (tokens: seq<Token>)
    requires Decoded(rle).Some?
    ensures (forall t <- tokens :: Legal(t)) && Code(tokens) == rle && Decoded(rle).value == Expand(tokens)
  {
    if rle == [] {
      tokens := [];
    } else {
      var first := if rle[0] != 0 then Literal(rle[0]) else Zeros(Word32(rle[1..5]));
      var skip := if rle[0] != 0 then 1 else 5;
      var rest := OnlyCodesDecode(rle[skip..]);
      tokens := [first] + rest;
      assert tokens[1..] == rest;
      if rle[0] == 0 {
        Word32Inverse(rle[1..5]);
        assert rle == [rle[0]] + rle[1..5] + rle[5..];
      } else {
        assert rle == [rle[0]] + rle[1..];
      }
    }
  }

  /** The obvious encoder: one token a byte. Every byte string therefore has a coding. */
  function Tokenise(raw: seq<byte>): (tokens: seq<Token>)
    ensures forall t <- tokens :: Legal(t)
    ensures Expand(tokens) == raw
  {
    if raw == [] then []
    else
      var tokens := [if raw[0] != 0 then Literal(raw[0]) else Zeros(1)] + Tokenise(raw[1..]);
      assert tokens[1..] == Tokenise(raw[1..]) && raw == [raw[0]] + raw[1..];
      tokens
  }

  // ----- the shortest coding -----

  const MAX_RUN: nat := TWO_32 - 1

  function LeadingZeros(raw: seq<byte>): (n: nat)
    ensures n <= |raw| && (n < |raw| ==> raw[n] != 0) && forall i :: 0 <= i < n ==> raw[i] == 0
  {
    if raw == [] || raw[0] != 0 then 0 else 1 + LeadingZeros(raw[1..])
  }

  /** The longest run the bytes can begin with. */
  function RunAt(raw: seq<byte>): (n: nat)
    ensures n <= |raw| && n < TWO_32 && forall i :: 0 <= i < n ==> raw[i] == 0
    ensures raw != [] && raw[0] == 0 ==> n > 0
  {
    var n := LeadingZeros(raw);
    if n <= MAX_RUN then n else MAX_RUN
  }

  function FirstToken(raw: seq<byte>): (t: Token)
    requires raw != []
    ensures Legal(t)
  {
    if raw[0] != 0 then Literal(raw[0]) else Zeros(RunAt(raw))
  }

  /** How many bytes of the dump a token stands for. */
  function Skip(t: Token): nat { if t.Literal? then 1 else t.n }

  lemma FirstTokenFits(raw: seq<byte>)
    requires raw != []
    ensures 0 < Skip(FirstToken(raw)) <= |raw| && Expand([FirstToken(raw)]) == raw[..Skip(FirstToken(raw))]
  {
    var t := FirstToken(raw);
    assert [t][1..] == [] && Expand([t][1..]) == [];
    if t.Zeros? {
      assert Expand([t]) == Zero(t.n) + [] == raw[..t.n];
    } else {
      assert Expand([t]) == [t.b] + [] == raw[..1];
    }
  }

  /** Runs as long as they can be. */
  function Compact(raw: seq<byte>): (tokens: seq<Token>)
    ensures forall t <- tokens :: Legal(t)
    decreases |raw|
  {
    if raw == [] then []
    else
      FirstTokenFits(raw);
      [FirstToken(raw)] + Compact(raw[Skip(FirstToken(raw))..])
  }

  lemma ExpandFirst(first: Token, rest: seq<Token>)
    ensures Expand([first] + rest) == Expand([first]) + Expand(rest)
  {
    assert ([first] + rest)[1..] == rest && [first][1..] == [];
  }

  lemma {:induction false} CompactExpands(raw: seq<byte>)
    ensures Expand(Compact(raw)) == raw
    decreases |raw|
  {
    if raw != [] {
      var t := FirstToken(raw);
      FirstTokenFits(raw);
      CompactExpands(raw[Skip(t)..]);
      ExpandsInParts(raw, t, Skip(t), Compact(raw[Skip(t)..]));
    }
  }

  lemma ExpandsInParts(raw: seq<byte>, first: Token, k: nat, rest: seq<Token>)
    requires k <= |raw| && Expand([first]) == raw[..k] && Expand(rest) == raw[k..]
    ensures Expand([first] + rest) == raw
  {
    ExpandFirst(first, rest);
    assert raw == raw[..k] + raw[k..];
  }

  /** No other coding of the same bytes is shorter. */
  ghost predicate Shortest(tokens: seq<Token>)
    requires forall t <- tokens :: Legal(t)
  {
    forall other: seq<Token> :: (forall t <- other :: Legal(t)) && Expand(other) == Expand(tokens)
      ==> |Code(tokens)| <= |Code(other)|
  }

  /** The length of the coding with the longest runs. */
  function Cost(raw: seq<byte>): nat
    decreases |raw|
  {
    if raw == [] then 0
    else if raw[0] != 0 then 1 + Cost(raw[1..])
    else 5 + Cost(raw[RunAt(raw)..])
  }

  lemma CodeStep(first: Token, rest: seq<Token>)
    requires Legal(first) && forall t <- rest :: Legal(t)
    ensures forall t <- [first] + rest :: Legal(t)
    ensures |Code([first] + rest)| == (if first.Literal? then 1 else 5) + |Code(rest)|
  {
    assert ([first] + rest)[1..] == rest;
  }

  lemma {:induction false} CompactCosts(raw: seq<byte>)
    ensures |Code(Compact(raw))| == Cost(raw)
    decreases |raw|
  {
    if raw != [] {
      var t := FirstToken(raw);
      FirstTokenFits(raw);
      CompactCosts(raw[Skip(t)..]);
      CodeStep(t, Compact(raw[Skip(t)..]));
    }
  }

  lemma LiteralCost(b: byte, rest: seq<byte>)
    requires b != 0
    ensures Cost([b] + rest) == 1 + Cost(rest)
  {
    assert ([b] + rest)[1..] == rest;
  }

  /** How many runs `k` zeros take. */
  function Runs(k: nat): nat {
    if k == 0 then 0 else 1 + Runs(k - if k <= MAX_RUN then k else MAX_RUN)
  }

  lemma {:induction false} RunsGrow(a: nat, b: nat)
    requires a <= b
    ensures Runs(a) <= Runs(b)
  {
    if a > MAX_RUN {
      RunsGrow(a - MAX_RUN, b - MAX_RUN);
    } else if a > 0 && b > MAX_RUN {
      RunsGrow(0, b - MAX_RUN);
    }
  }

  lemma OneRunMore(z: nat, n: nat)
    requires n <= MAX_RUN
    ensures Runs(n + z) <= 1 + Runs(z)
  {
    RunsGrow(n + z, MAX_RUN + z);
  }

  lemma ZerosRun(k: nat, raw: seq<byte>, rest: seq<byte>)
    requires k > 0 && raw == Zero(k) + rest && (rest != [] ==> rest[0] != 0)
    ensures RunAt(raw) == if k <= MAX_RUN then k else MAX_RUN
  {
    assert forall i :: 0 <= i < k ==> raw[i] == 0;
    assert LeadingZeros(raw) >= k;
    assert |raw| > k ==> raw[k] == rest[0];
  }

  lemma {:induction false} ZerosCost(k: nat, rest: seq<byte>)
    requires rest != [] ==> rest[0] != 0
    ensures Cost(Zero(k) + rest) == 5 * Runs(k) + Cost(rest)
    decreases k
  {
    if k == 0 {
      assert Zero(0) + rest == rest;
    } else {
      var raw, n := Zero(k) + rest, if k <= MAX_RUN then k else MAX_RUN;
      ZerosRun(k, raw, rest);
      DropZeros(k, n, rest);
      ZerosCost(k - n, rest);
      CostOfRun(raw, n, Zero(k - n) + rest);
    }
  }

  lemma DropZeros(k: nat, n: nat, rest: seq<byte>)
    requires n <= k
    ensures (Zero(k) + rest)[n..] == Zero(k - n) + rest
  {
  }

  lemma CostOfRun(raw: seq<byte>, n: nat, rest: seq<byte>)
    requires raw != [] && raw[0] == 0 && n == RunAt(raw) && raw[n..] == rest
    ensures Cost(raw) == 5 + Cost(rest)
  {
  }

  lemma RunCost(n: nat, rest: seq<byte>)
    requires n <= MAX_RUN
    ensures Cost(Zero(n) + rest) <= 5 + Cost(rest)
  {
    var z := LeadingZeros(rest);
    SplitZeros(rest, z);
    RunCostOn(n, z, rest[z..]);
  }

  lemma SplitZeros(rest: seq<byte>, z: nat)
    requires z == LeadingZeros(rest)
    ensures rest == Zero(z) + rest[z..]
  {
    assert rest[..z] == Zero(z);
  }

  lemma RunCostOn(n: nat, z: nat, tail: seq<byte>)
    requires n <= MAX_RUN && (tail != [] ==> tail[0] != 0)
    ensures Cost(Zero(n) + (Zero(z) + tail)) <= 5 + Cost(Zero(z) + tail)
  {
    JoinZeros(n, z, tail);
    ZerosCost(z, tail);
    ZerosCost(n + z, tail);
    OneRunMore(z, n);
  }

  lemma JoinZeros(n: nat, z: nat, tail: seq<byte>)
    ensures Zero(n) + (Zero(z) + tail) == Zero(n + z) + tail
  {
  }

  lemma {:induction false} CostIsLeast(tokens: seq<Token>)
    requires forall t <- tokens :: Legal(t)
    ensures Cost(Expand(tokens)) <= |Code(tokens)|
  {
    if tokens != [] {
      var first, rest := tokens[0], tokens[1..];
      assert Legal(first) && tokens == [first] + rest;
      CostIsLeast(rest);
      CodeStep(first, rest);
      match first
      case Literal(b) => LiteralCost(b, Expand(rest));
      case Zeros(n) => RunCost(n, Expand(rest));
    }
  }

  /** So a coding is shortest exactly when it is as long as the one with the longest runs. */
  lemma ShortestIff(tokens: seq<Token>)
    requires forall t <- tokens :: Legal(t)
    ensures Shortest(tokens) <==> |Code(tokens)| == Cost(Expand(tokens))
  {
    CostIsLeast(tokens);
    var raw := Expand(tokens);
    if |Code(tokens)| == Cost(raw) {
      forall other: seq<Token> | (forall t <- other :: Legal(t)) && Expand(other) == raw
        ensures |Code(tokens)| <= |Code(other)|
      {
        CostIsLeast(other);
      }
    }
    if Shortest(tokens) {
      CompactExpands(raw);
      CompactCosts(raw);
    }
  }

  /** No run is empty, and two of them follow one another only if the first is as long as can be. */
  predicate Maximal(tokens: seq<Token>) {
    forall i :: 0 <= i < |tokens| && tokens[i].Zeros? ==>
      && 0 < tokens[i].n
      && (tokens[i].n == MAX_RUN || i + 1 == |tokens| || tokens[i + 1].Literal?)
  }

  lemma {:induction false} MaximalCost(tokens: seq<Token>)
    requires (forall t <- tokens :: Legal(t)) && Maximal(tokens)
    ensures |Code(tokens)| == Cost(Expand(tokens))
  {
    if tokens != [] {
      var first, rest := tokens[0], tokens[1..];
      assert Legal(first) && tokens == [first] + rest;
      assert Maximal(rest) by { assert forall i :: 0 <= i < |rest| ==> rest[i] == tokens[i + 1]; }
      MaximalCost(rest);
      CodeStep(first, rest);
      match first
      case Literal(b) => LiteralCost(b, Expand(rest));
      case Zeros(n) =>
        assert n == MAX_RUN || rest == [] || (rest[0] == tokens[1] && Legal(tokens[1]));
        LongRun(n, rest);
        CostOfRun(Zero(n) + Expand(rest), n, Expand(rest));
    }
  }

  lemma LongRun(n: nat, rest: seq<Token>)
    requires 0 < n <= MAX_RUN && (n == MAX_RUN || rest == [] || (rest[0].Literal? && rest[0].b != 0))
    ensures RunAt(Zero(n) + Expand(rest)) == n && (Zero(n) + Expand(rest))[n..] == Expand(rest)
    ensures (Zero(n) + Expand(rest))[0] == 0
  {
    var raw := Zero(n) + Expand(rest);
    assert forall i :: 0 <= i < n ==> raw[i] == 0;
    assert LeadingZeros(raw) >= n;
    if n < MAX_RUN && rest != [] {
      assert Expand(rest)[0] == rest[0].b && raw[n] == rest[0].b;
    }
  }

  lemma MaximalIsShortest(tokens: seq<Token>)
    requires (forall t <- tokens :: Legal(t)) && Maximal(tokens)
    ensures Shortest(tokens)
  {
    MaximalCost(tokens);
    ShortestIff(tokens);
  }
}
