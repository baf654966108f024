/** Bytes, and the little-endian 32-bit words made of them. */
module Bytes {
  type byte = c: int | 0 <= c < 256

  const TWO_32: nat := 0x1_0000_0000

  function Word32(b: seq<byte>): (n: nat)
    requires |b| >= 4
    ensures n < TWO_32
  {
    b[0] as nat + 0x100 * (b[1] as nat + 0x100 * (b[2] as nat + 0x100 * (b[3] as nat)))
  }

  lemma Word32Is(b0: byte, b1: byte, b2: byte, b3: byte)
    ensures Word32([b0, b1, b2, b3])
         == b0 as nat + 0x100 * b1 as nat + 0x1_0000 * b2 as nat + 0x100_0000 * b3 as nat
  {
  }

  function Word32Bytes(n: nat): (b: seq<byte>)
    requires n < TWO_32
    ensures |b| == 4 && Word32(b) == n
  {
    var n1 := n / 0x100;
    var n2 := n1 / 0x100;
    var n3 := n2 / 0x100;
    assert n == n % 0x100 + 0x100 * n1 && n1 == n1 % 0x100 + 0x100 * n2 && n2 == n2 % 0x100 + 0x100 * n3;
    [n % 0x100, n1 % 0x100, n2 % 0x100, n3]
  }

  lemma Word32Inverse(b: seq<byte>)
    requires |b| == 4
    ensures Word32Bytes(Word32(b)) == b
  {
    LowByte(b[0], b[1] as nat + 0x100 * (b[2] as nat + 0x100 * (b[3] as nat)));
    LowByte(b[1], b[2] as nat + 0x100 * (b[3] as nat));
    LowByte(b[2], b[3]);
  }

  lemma LowByte(b: byte, q: nat)
    ensures (b as nat + 0x100 * q) % 0x100 == b && (b as nat + 0x100 * q) / 0x100 == q
  {
  }
}
