/** Bytes and the 32-bit big-endian integers of the TDH Socket protocol. */
module Wire {
  type Octet = x: int | 0 <= x < 256

  const U32 := 0x1_0000_0000

  function Be32(n: nat): (s: seq<Octet>)
    requires n < U32
    ensures |s| == 4
  {
    var a := n / 256;
    var b := a / 256;
    [b / 256, b % 256, a % 256, n % 256]
  }

  function FromBe32(s: seq<Octet>): (n: nat)
    requires |s| == 4
    ensures n < U32
  {
    ((s[0] as int * 256 + s[1]) * 256 + s[2]) * 256 + s[3]
  }

  /** The most significant byte comes first. */
  lemma Be32Bytes(n: nat)
    requires n < U32
    ensures var s := Be32(n);
            && s[0] == n / 0x100_0000 && s[1] == n / 0x1_0000 % 256 && s[2] == n / 0x100 % 256 && s[3] == n % 256
            && n == s[0] as int * 0x100_0000 + s[1] as int * 0x1_0000 + s[2] as int * 0x100 + s[3] as int
  {
  }

  lemma LastByte(q: nat, r: Octet)
    ensures (q * 256 + r) / 256 == q && (q * 256 + r) % 256 == r
  {
  }

  /** Any four bytes are some number's. */
  lemma Be32Onto(s: seq<Octet>)
    requires |s| == 4
    ensures Be32(FromBe32(s)) == s
  {
    var b := s[0] as int * 256 + s[1];
    var a := b * 256 + s[2];
    LastByte(s[0], s[1]);
    LastByte(b, s[2]);
    LastByte(a, s[3]);
  }

  lemma Be32RoundTrip(n: nat)
    requires n < U32
    ensures FromBe32(Be32(n)) == n
  {
  }

  /** The first four bytes of an input that starts with an encoded number. */
  lemma Be32Prefix(n: nat, rest: seq<Octet>)
    requires n < U32
    ensures var s := Be32(n) + rest; |s| >= 4 && s[..4] == Be32(n) && s[4..] == rest && FromBe32(s[..4]) == n
  {
    Be32RoundTrip(n);
    var s := Be32(n) + rest;
    assert s[..4] == Be32(n) && s[4..] == rest;
  }
}
