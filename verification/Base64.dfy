/** The base 64 encoding of section 4 of RFC 4648. */
module Base64 {
  import opened Bytes
  import opened Options

  type sextet = c: int | 0 <= c < 64

  const PAD: char := '='

  function ToChar(v: sextet): (c: char)
    ensures c != PAD
  {
    if v < 26 then 'A' + v as char
    else if v < 52 then 'a' + (v - 26) as char
    else if v < 62 then '0' + (v - 52) as char
    else if v == 62 then '+' else '/'
  }

  function FromChar(c: char): Option<sextet> {
    if 'A' <= c <= 'Z' then Some((c - 'A') as int)
    else if 'a' <= c <= 'z' then Some((c - 'a') as int + 26)
    else if '0' <= c <= '9' then Some((c - '0') as int + 52)
    else if c == '+' then Some(62)
    else if c == '/' then Some(63)
    else None
  }

  lemma CharRoundTrip(v: sextet)
    ensures FromChar(ToChar(v)) == Some(v)
  {
  }

  /** Three bytes as four sextets. */
  function Split(a: byte, b: byte, c: byte): (sextet, sextet, sextet, sextet) {
    (a / 4, a % 4 * 16 + b / 16, b % 16 * 4 + c / 64, c % 64)
  }

  function Join(w: sextet, x: sextet, y: sextet, z: sextet): (byte, byte, byte) {
    (w * 4 + x / 16, x % 16 * 16 + y / 4, y % 4 * 64 + z)
  }

  lemma Digits(high: nat, low: nat)
    ensures low < 16 ==> (high * 16 + low) / 16 == high && (high * 16 + low) % 16 == low
    ensures low < 4 ==> (high * 4 + low) / 4 == high && (high * 4 + low) % 4 == low
  {
  }

  lemma SplitJoin(a: byte, b: byte, c: byte)
    ensures var q := Split(a, b, c); Join(q.0, q.1, q.2, q.3) == (a, b, c)
  {
    Digits(a as nat % 4, b as nat / 16);
    Digits(b as nat % 16, c as nat / 64);
  }

  function Quad(q: (sextet, sextet, sextet, sextet)): string {
    [ToChar(q.0), ToChar(q.1), ToChar(q.2), ToChar(q.3)]
  }

  function Encode(bs: seq<byte>): string {
    if |bs| == 0 then []
    else if |bs| == 1 then Quad(Split(bs[0], 0, 0))[..2] + [PAD, PAD]
    else if |bs| == 2 then Quad(Split(bs[0], bs[1], 0))[..3] + [PAD]
    else Quad(Split(bs[0], bs[1], bs[2])) + Encode(bs[3..])
  }

  /** What is left over of the characters of a group that were read. */
  datatype Group = Empty | One(rest: sextet) | Two(half: nibble) | Three(pair: crumb)

  type nibble = c: int | 0 <= c < 16

  type crumb = c: int | 0 <= c < 4

  /** The decoder between two characters; `pads` counts the padding since the last of them. */
  datatype Reader = Reader(out: seq<byte>, group: Group, pads: nat) {
    function Chars(): nat {
      match group
      case Empty => 0
      case One(_) => 1
      case Two(_) => 2
      case Three(_) => 3
    }

    function Take(v: sextet): Reader {
      match group
      case Empty => Reader(out, One(v), 0)
      case One(w) => Reader(out + [w * 4 + v / 16], Two(v % 16), 0)
      case Two(x) => Reader(out + [x * 16 + v / 4], Three(v % 4), 0)
      case Three(y) => Reader(out + [y * 64 + v], Empty, 0)
    }
  }

  /**
   The decoder that Python's `b64decode` is by default: it skips what is no character of the
   alphabet, ends where padding completes a group, ignores padding that does not, and fails
   only if the text ends inside a group.
   */
  function Decode(s: string): Option<seq<byte>> { Read(Reader([], Empty, 0), s) }

  function Read(r: Reader, s: string): Option<seq<byte>>
    decreases |s|
  {
    if s == [] then if r.group.Empty? then Some(r.out) else None
    else if s[0] == PAD then
      if r.Chars() >= 2 && r.Chars() + r.pads + 1 >= 4 then Some(r.out)
      else Read(if r.Chars() >= 2 then r.(pads := r.pads + 1) else r, s[1..])
    else
      match FromChar(s[0])
      case None => Read(r, s[1..])
      case Some(v) => Read(r.Take(v), s[1..])
  }

  lemma ReadChar(r: Reader, v: sextet, s: string, rest: string)
    requires s == [ToChar(v)] + rest
    ensures Read(r, s) == Read(r.Take(v), rest)
  {
    CharRoundTrip(v);
    assert s[1..] == rest;
  }

  /** A full group is read as its three bytes. */
  lemma ReadGroup(out: seq<byte>, a: byte, b: byte, c: byte, rest: string)
    ensures Read(Reader(out, Empty, 0), Quad(Split(a, b, c)) + rest) == Read(Reader(out + [a, b, c], Empty, 0), rest)
  {
    var (w, x, y, z) := Split(a, b, c);
    var r0 := Reader(out, Empty, 0);
    var s3 := [ToChar(z)] + rest;
    var s2 := [ToChar(y)] + s3;
    var s1 := [ToChar(x)] + s2;
    assert Quad(Split(a, b, c)) + rest == [ToChar(w)] + s1;
    ReadChar(r0, w, [ToChar(w)] + s1, s1);
    ReadChar(r0.Take(w), x, s1, s2);
    ReadChar(r0.Take(w).Take(x), y, s2, s3);
    ReadChar(r0.Take(w).Take(x).Take(y), z, s3, rest);
    TakeFour(out, a, b, c);
  }

  lemma TakeFour(out: seq<byte>, a: byte, b: byte, c: byte)
    ensures
      var (w, x, y, z) := Split(a, b, c);
      var two := Reader(out, Empty, 0).Take(w).Take(x);
      && two == Reader(out + [a], Two(b / 16), 0)
      && two.Take(y) == Reader(out + [a, b], Three(c / 64), 0)
      && two.Take(y).Take(z) == Reader(out + [a, b, c], Empty, 0)
  {
    SplitJoin(a, b, c);
    Digits(a as nat % 4, b as nat / 16);
    Digits(b as nat % 16, c as nat / 64);
    assert out + [a] + [b] == out + [a, b] && out + [a, b] + [c] == out + [a, b, c];
  }

  lemma ReadOne(out: seq<byte>, a: byte)
    ensures Read(Reader(out, Empty, 0), Encode([a])) == Some(out + [a])
  {
    var (w, x, _, _) := Split(a, 0, 0);
    var r0 := Reader(out, Empty, 0);
    var s := [PAD, PAD];
    assert Encode([a]) == [ToChar(w)] + ([ToChar(x)] + s);
    ReadChar(r0, w, Encode([a]), [ToChar(x)] + s);
    ReadChar(r0.Take(w), x, [ToChar(x)] + s, s);
    TakeFour(out, a, 0, 0);
    assert s[1..] == [PAD];
  }

  lemma ReadTwo(out: seq<byte>, a: byte, b: byte)
    ensures Read(Reader(out, Empty, 0), Encode([a, b])) == Some(out + [a, b])
  {
    var (w, x, y, _) := Split(a, b, 0);
    var r0 := Reader(out, Empty, 0);
    var s2 := [ToChar(y)] + [PAD];
    var s1 := [ToChar(x)] + s2;
    assert Encode([a, b]) == [ToChar(w)] + s1;
    ReadChar(r0, w, [ToChar(w)] + s1, s1);
    ReadChar(r0.Take(w), x, s1, s2);
    ReadChar(r0.Take(w).Take(x), y, s2, [PAD]);
    TakeFour(out, a, b, 0);
  }

  lemma {:induction false} ReadEncoded(out: seq<byte>, bs: seq<byte>)
    ensures Read(Reader(out, Empty, 0), Encode(bs)) == Some(out + bs)
    decreases |bs|
  {
    if |bs| >= 3 {
      ReadGroup(out, bs[0], bs[1], bs[2], Encode(bs[3..]));
      ReadEncoded(out + [bs[0], bs[1], bs[2]], bs[3..]);
      assert out + [bs[0], bs[1], bs[2]] + bs[3..] == out + bs;
    } else if |bs| == 2 {
      assert bs == [bs[0], bs[1]];
      ReadTwo(out, bs[0], bs[1]);
    } else if |bs| == 1 {
      assert bs == [bs[0]];
      ReadOne(out, bs[0]);
    } else {
      assert out + bs == out;
    }
  }

  lemma RoundTrip(bs: seq<byte>)
    ensures Decode(Encode(bs)) == Some(bs)
  {
    ReadEncoded([], bs);
    assert [] + bs == bs;
  }

  // ----- how many bytes a text can hold -----

  /** The characters `n` bytes take, padding included. */
  function Width(n: nat): nat { (n + 2) / 3 * 4 }

  lemma {:induction false} EncodeWidth(bs: seq<byte>)
    ensures |Encode(bs)| == Width(|bs|)
  {
    if |bs| >= 3 {
      EncodeWidth(bs[3..]);
      WidthStep(|bs|);
      assert Encode(bs) == Quad(Split(bs[0], bs[1], bs[2])) + Encode(bs[3..]);
    } else {
      assert Width(0) == 0 && Width(1) == Width(2) == 4;
    }
  }

  lemma WidthStep(n: nat)
    requires n >= 3
    ensures Width(n) == 4 + Width(n - 3)
  {
  }

  /** Whole groups encode on their own. */
  lemma {:induction false} EncodeConcat(a: seq<byte>, b: seq<byte>)
    requires |a| % 3 == 0
    ensures Encode(a + b) == Encode(a) + Encode(b)
    decreases |a|
  {
    if a == [] {
      assert a + b == b;
    } else {
      assert (a + b)[3..] == a[3..] + b && forall i :: 0 <= i < 3 ==> (a + b)[i] == a[i];
      EncodeConcat(a[3..], b);
      var quad := Quad(Split(a[0], a[1], a[2]));
      assert quad + (Encode(a[3..]) + Encode(b)) == quad + Encode(a[3..]) + Encode(b);
    }
  }

  /** The bytes of `k` groups and of the characters read of the next. */
  predicate Read3(r: Reader, k: nat) {
    |r.out| == 3 * k + if r.Chars() >= 2 then r.Chars() - 1 else 0
  }

  lemma {:induction false} ReadWithin(r: Reader, s: string, k: nat)
    requires Read3(r, k) && Read(r, s).Some?
    ensures Width(|Read(r, s).value|) <= 4 * k + r.Chars() + r.pads + |s|
    decreases |s|
  {
    if s != [] {
      if s[0] == PAD {
        if !(r.Chars() >= 2 && r.Chars() + r.pads + 1 >= 4) {
          ReadWithin(if r.Chars() >= 2 then r.(pads := r.pads + 1) else r, s[1..], k);
        }
      } else if FromChar(s[0]).None? {
        ReadWithin(r, s[1..], k);
      } else {
        ReadWithin(r.Take(FromChar(s[0]).value), s[1..], if r.group.Three? then k + 1 else k);
      }
    }
  }

  /** Whatever a text decodes to has an encoding no longer than the text. */
  lemma DecodeWithin(s: string)
    requires Decode(s).Some?
    ensures Width(|Decode(s).value|) <= |s|
  {
    ReadWithin(Reader([], Empty, 0), s, 0);
  }

  // ----- the characters, one by one -----

  const ALPHABET: string := "ABCDEFGHIJKLMNOPQRSTUVWXYZ" + "abcdefghijklmnopqrstuvwxyz" + "0123456789" + "+/"

  lemma CharIs(v: sextet)
    ensures |ALPHABET| == 64 && ToChar(v) == ALPHABET[v]
  {
  }

  /** Four characters spell the six-bit digits of a 24-bit number. */
  predicate Spells(text: string, v: nat)
    requires v < 0x100_0000
  {
    && |text| == 4 && |ALPHABET| == 64
    && text[0] == ALPHABET[v / 0x4_0000] && text[1] == ALPHABET[v / 0x1000 % 64]
    && text[2] == ALPHABET[v / 64 % 64] && text[3] == ALPHABET[v % 64]
  }

  function Number(a: byte, b: byte, c: byte): (v: nat)
    ensures v < 0x100_0000
  {
    0x1_0000 * a as nat + 0x100 * b as nat + c as nat
  }

  lemma SplitSum(a: byte, b: byte, c: byte)
    ensures
      var q := Split(a, b, c);
      Number(a, b, c) == 0x4_0000 * q.0 + 0x1000 * q.1 + 64 * q.2 + q.3
  {
  }

  lemma SumDigits(v: nat, w: sextet, x: sextet, y: sextet, z: sextet)
    requires v == 0x4_0000 * w + 0x1000 * x + 64 * y + z
    ensures v / 0x4_0000 == w && v / 0x1000 == 64 * w + x && v / 64 == 0x1000 * w + 64 * x + y && v % 64 == z
  {
  }

  lemma LowDigit(high: nat, low: nat)
    requires low < 64
    ensures (64 * high + low) % 64 == low
  {
  }

  lemma SplitDigits(a: byte, b: byte, c: byte)
    ensures
      var v, q := Number(a, b, c), Split(a, b, c);
      q.0 == v / 0x4_0000 && q.1 == v / 0x1000 % 64 && q.2 == v / 64 % 64 && q.3 == v % 64
  {
    var q := Split(a, b, c);
    SplitSum(a, b, c);
    SumDigits(Number(a, b, c), q.0, q.1, q.2, q.3);
    LowDigit(q.0, q.1);
    LowDigit(64 * (q.0 as nat) + q.1, q.2);
  }

  lemma QuadSpells(a: byte, b: byte, c: byte)
    ensures Spells(Quad(Split(a, b, c)), Number(a, b, c))
  {
    SplitDigits(a, b, c);
    var q := Split(a, b, c);
    CharIs(q.0);
    CharIs(q.1);
    CharIs(q.2);
    CharIs(q.3);
  }

  /** Three bytes are spelt by four characters; a shorter end is spelt as far as it goes, and padded. */
  ghost predicate SpeltAt(bs: seq<byte>, g: nat, text: string)
    requires 3 * g < |bs| && |text| == 4
  {
    var left := |bs| - 3 * g;
    if left >= 3 then Spells(text, Number(bs[3 * g], bs[3 * g + 1], bs[3 * g + 2]))
    else if left == 2 then
      && text[3] == '='
      && exists c :: Spells([text[0], text[1], text[2], c], Number(bs[3 * g], bs[3 * g + 1], 0))
    else
      && text[2] == text[3] == '='
      && exists c, d :: Spells([text[0], text[1], c, d], Number(bs[3 * g], 0, 0))
  }

  /** Group `g` of the text spells its bytes, and nothing follows the last group. */
  ghost predicate GroupSpelt(bs: seq<byte>, g: nat, text: string)
    requires 3 * g < |bs|
  {
    && 4 * g + 4 <= |text| && SpeltAt(bs, g, text[4 * g..4 * g + 4])
    && (3 * g + 3 >= |bs| ==> |text| == 4 * g + 4)
  }

  lemma ThreeSpelt(bs: seq<byte>)
    requires |bs| >= 3
    ensures |Encode(bs)| >= 4 && SpeltAt(bs, 0, Encode(bs)[0..4])
  {
    var quad := Quad(Split(bs[0], bs[1], bs[2]));
    QuadSpells(bs[0], bs[1], bs[2]);
    assert Encode(bs)[0..4] == quad;
  }

  lemma TwoSpelt(bs: seq<byte>)
    requires |bs| == 2
    ensures |Encode(bs)| == 4 && SpeltAt(bs, 0, Encode(bs)[0..4])
  {
    var quad, text := Quad(Split(bs[0], bs[1], 0)), Encode(bs);
    QuadSpells(bs[0], bs[1], 0);
    assert text[0..4] == text == quad[..3] + [PAD];
    assert [text[0], text[1], text[2], quad[3]] == quad;
  }

  lemma OneSpelt(bs: seq<byte>)
    requires |bs| == 1
    ensures |Encode(bs)| == 4 && SpeltAt(bs, 0, Encode(bs)[0..4])
  {
    var quad, text := Quad(Split(bs[0], 0, 0)), Encode(bs);
    QuadSpells(bs[0], 0, 0);
    assert text[0..4] == text == quad[..2] + [PAD, PAD];
    assert [text[0], text[1], quad[2], quad[3]] == quad;
  }

  lemma WidthOfOne(n: nat)
    requires n > 0
    ensures Width(n) >= 4 && (n <= 3 ==> Width(n) == 4)
  {
  }

  lemma FirstIs(bs: seq<byte>, text: string, part: string)
    requires |bs| > 0 && |text| >= 4 && part == text[0..4] && SpeltAt(bs, 0, part) && (|bs| <= 3 ==> |text| == 4)
    ensures GroupSpelt(bs, 0, text)
  {
    assert text[4 * 0..4 * 0 + 4] == part;
  }

  lemma FirstGroup(bs: seq<byte>)
    requires |bs| > 0
    ensures GroupSpelt(bs, 0, Encode(bs))
  {
    EncodeWidth(bs);
    WidthOfOne(|bs|);
    if |bs| >= 3 {
      ThreeSpelt(bs);
    } else if |bs| == 2 {
      TwoSpelt(bs);
    } else {
      OneSpelt(bs);
    }
    FirstIs(bs, Encode(bs), Encode(bs)[0..4]);
  }

  lemma SpeltBehind(bs: seq<byte>, g: nat, tail: seq<byte>, text: string)
    requires 3 * g < |bs| && tail == bs[3 * g..] && |text| == 4 && SpeltAt(tail, 0, text)
    ensures SpeltAt(bs, g, text)
  {
  }

  lemma GroupBehind(bs: seq<byte>, g: nat, tail: seq<byte>, rest: string, text: string)
    requires 3 * g < |bs| && tail == bs[3 * g..] && GroupSpelt(tail, 0, rest)
    requires |text| == 4 * g + |rest| && text[4 * g..] == rest
    ensures GroupSpelt(bs, g, text)
  {
    assert text[4 * g..4 * g + 4] == rest[0..4];
    SpeltBehind(bs, g, tail, rest[0..4]);
  }

  lemma WidthOfGroups(g: nat)
    ensures 3 * g % 3 == 0 && Width(3 * g) == 4 * g
  {
  }

  lemma Rest(text: string, front: string, rest: string)
    requires text == front + rest
    ensures |text| == |front| + |rest| && text[|front|..] == rest
  {
  }

  lemma EncodeBehind(bs: seq<byte>, g: nat, tail: seq<byte>)
    requires 3 * g < |bs| && tail == bs[3 * g..]
    ensures |Encode(bs)| == 4 * g + |Encode(tail)| && Encode(bs)[4 * g..] == Encode(tail)
  {
    var front := bs[..3 * g];
    assert bs == front + tail;
    WidthOfGroups(g);
    EncodeConcat(front, tail);
    EncodeWidth(front);
    Rest(Encode(bs), Encode(front), Encode(tail));
  }

  lemma SpelledBehind(bs: seq<byte>, g: nat, tail: seq<byte>, rest: string, text: string)
    requires 3 * g < |bs| && tail == bs[3 * g..] && rest == Encode(tail) && text == Encode(bs)
    ensures GroupSpelt(bs, g, text)
  {
    EncodeBehind(bs, g, tail);
    FirstGroup(tail);
    GroupBehind(bs, g, tail, rest, text);
  }

  /** The encoding spells the bytes group by group, three bytes by four characters. */
  lemma EncodeSpells(bs: seq<byte>, g: nat)
    requires 3 * g < |bs|
    ensures GroupSpelt(bs, g, Encode(bs))
  {
    SpelledBehind(bs, g, bs[3 * g..], Encode(bs[3 * g..]), Encode(bs));
  }

  lemma {:induction false} ReadSkips(r: Reader, a: string, c: char, b: string)
    requires c !in ALPHABET && c != '='
    ensures Read(r, a + [c] + b) == Read(r, a + b)
    decreases |a|
  {
    var s := a + [c] + b;
    if a == "" {
      assert s[1..] == b && a + b == b;
      NotInAlphabet(c);
    } else {
      assert s[1..] == a[1..] + [c] + b && (a + b)[1..] == a[1..] + b;
      if s[0] == PAD {
        ReadSkips(if r.Chars() >= 2 then r.(pads := r.pads + 1) else r, a[1..], c, b);
      } else if FromChar(s[0]).None? {
        ReadSkips(r, a[1..], c, b);
      } else {
        ReadSkips(r.Take(FromChar(s[0]).value), a[1..], c, b);
      }
    }
  }

  lemma NotInAlphabet(c: char)
    requires c !in ALPHABET
    ensures FromChar(c).None?
  {
    if FromChar(c).Some? {
      CharIs(FromChar(c).value);
    }
  }

  /** What is neither a character of the alphabet nor padding might as well not be there. */
  lemma NoiseSkipped(a: string, c: char, b: string)
    requires c !in ALPHABET && c != '='
    ensures Decode(a + [c] + b) == Decode(a + b)
  {
    ReadSkips(Reader([], Empty, 0), a, c, b);
  }
}
