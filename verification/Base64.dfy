/** Base64 as section 4 of RFC 4648 defines it, without padding: the sextet code
    shared by the mailbox-name encoder and the lenient attachment reader. */
module Base64 {
  type Byte = b: int | 0 <= b < 256
  type Sextet = c: int | 0 <= c < 64

  /** How often d goes into x, and what is left: the halves of a number cut at a bit. */
  function Quot(x: nat, d: nat): nat
    requires d > 0
  {
    if x < d then 0 else 1 + Quot(x - d, d)
  }

  function Rem(x: nat, d: nat): nat
    requires d > 0
  {
    if x < d then x else Rem(x - d, d)
  }

  /** At the bits used here they are the ordinary division. */
  lemma {:induction false} Cut(x: nat, d: nat)
    requires d == 4 || d == 16 || d == 64 || d == 256 || d == 1024
    ensures Quot(x, d) == x / d && Rem(x, d) == x % d
  {
    if x >= d { Cut(x - d, d); }
  }

  // One group: bytes a, b, c against sextets p, q, r, s.

  function S0(a: Byte): Sextet {
    Cut(a, 4);
    Quot(a, 4)
  }

  function S1(a: Byte, b: Byte): Sextet {
    Cut(a, 4);
    Cut(b, 16);
    Rem(a, 4) * 16 + Quot(b, 16)
  }

  function S2(b: Byte, c: Byte): Sextet {
    Cut(b, 16);
    Cut(c, 64);
    Rem(b, 16) * 4 + Quot(c, 64)
  }

  function S3(c: Byte): Sextet {
    Cut(c, 64);
    Rem(c, 64)
  }

  function B0(p: Sextet, q: Sextet): Byte {
    Cut(q, 16);
    p * 4 + Quot(q, 16)
  }

  function B1(q: Sextet, r: Sextet): Byte {
    Cut(q, 16);
    Cut(r, 4);
    Rem(q, 16) * 16 + Quot(r, 4)
  }

  function B2(r: Sextet, s: Sextet): Byte {
    Cut(r, 4);
    Rem(r, 4) * 64 + s
  }

  // The group functions are the shifts and masks they stand for.

  lemma S0Is(a: Byte)
    ensures S0(a) == a / 4
  {
    Cut(a, 4);
  }

  lemma S1Is(a: Byte, b: Byte)
    ensures S1(a, b) == a % 4 * 16 + b / 16
  {
    Cut(a, 4);
    Cut(b, 16);
  }

  lemma S2Is(b: Byte, c: Byte)
    ensures S2(b, c) == b % 16 * 4 + c / 64
  {
    Cut(b, 16);
    Cut(c, 64);
  }

  lemma S3Is(c: Byte)
    ensures S3(c) == c % 64
  {
    Cut(c, 64);
  }

  lemma B0Is(p: Sextet, q: Sextet)
    ensures B0(p, q) == p * 4 + q / 16
  {
    Cut(q, 16);
  }

  lemma B1Is(q: Sextet, r: Sextet)
    ensures B1(q, r) == q % 16 * 16 + r / 4
  {
    Cut(q, 16);
    Cut(r, 4);
  }

  lemma B2Is(r: Sextet, s: Sextet)
    ensures B2(r, s) == r % 4 * 64 + s
  {
    Cut(r, 4);
  }

  lemma Split4(x: int, y: int)
    requires 0 <= y < 4
    ensures (x * 4 + y) / 4 == x && (x * 4 + y) % 4 == y
  {
  }

  lemma Split16(x: int, y: int)
    requires 0 <= y < 16
    ensures (x * 16 + y) / 16 == x && (x * 16 + y) % 16 == y
  {
  }

  lemma Split64(x: int, y: int)
    requires 0 <= y < 64
    ensures (x * 64 + y) / 64 == x && (x * 64 + y) % 64 == y
  {
  }

  lemma FirstByte(a: Byte, b: Byte)
    ensures B0(S0(a), S1(a, b)) == a
  {
    hide S0, S1, S2, S3, B0, B1, B2, Quot, Rem;
    S0Is(a);
    S1Is(a, b);
    B0Is(S0(a), S1(a, b));
    Split16(a % 4, b / 16);
  }

  lemma SecondByte(a: Byte, b: Byte, c: Byte)
    ensures B1(S1(a, b), S2(b, c)) == b
  {
    hide S0, S1, S2, S3, B0, B1, B2, Quot, Rem;
    S1Is(a, b);
    S2Is(b, c);
    B1Is(S1(a, b), S2(b, c));
    Split16(a % 4, b / 16);
    Split4(b % 16, c / 64);
  }

  lemma ThirdByte(b: Byte, c: Byte)
    ensures B2(S2(b, c), S3(c)) == c
  {
    hide S0, S1, S2, S3, B0, B1, B2, Quot, Rem;
    S2Is(b, c);
    S3Is(c);
    B2Is(S2(b, c), S3(c));
    Split4(b % 16, c / 64);
  }

  lemma GroupEncodes(p: Sextet, q: Sextet, r: Sextet, s: Sextet)
    ensures S0(B0(p, q)) == p
    ensures S1(B0(p, q), B1(q, r)) == q
    ensures S2(B1(q, r), B2(r, s)) == r
    ensures S3(B2(r, s)) == s
  {
    hide S0, S1, S2, S3, B0, B1, B2, Quot, Rem;
    B0Is(p, q);
    B1Is(q, r);
    B2Is(r, s);
    S0Is(B0(p, q));
    S1Is(B0(p, q), B1(q, r));
    S2Is(B1(q, r), B2(r, s));
    S3Is(B2(r, s));
    Split4(p, q / 16);
    Split16(q % 16, r / 4);
    Split64(r % 4, s);
  }

  /** base64.StdEncoding without padding, before letters are assigned. */
  function Encode(bs: seq<Byte>): seq<Sextet> {
    if |bs| == 0 then []
    else if |bs| == 1 then [S0(bs[0]), S1(bs[0], 0)]
    else if |bs| == 2 then [S0(bs[0]), S1(bs[0], bs[1]), S2(bs[1], 0)]
    else [S0(bs[0]), S1(bs[0], bs[1]), S2(bs[1], bs[2]), S3(bs[2])] + Encode(bs[3..])
  }

  /** The bytes carried by a run of sextets; a lone last sextet carries none and
      the spare bits of a short last group are ignored, as Go's decoder does. */
  function Decode(cs: seq<Sextet>): seq<Byte> {
    if |cs| < 2 then []
    else if |cs| == 2 then [B0(cs[0], cs[1])]
    else if |cs| == 3 then [B0(cs[0], cs[1]), B1(cs[1], cs[2])]
    else [B0(cs[0], cs[1]), B1(cs[1], cs[2]), B2(cs[2], cs[3])] + Decode(cs[4..])
  }

  /** A sextet run an encoder could have produced: no lone sextet, spare bits zero. */
  predicate Canonical(cs: seq<Sextet>) {
    && Rem(|cs|, 4) != 1
    && (Rem(|cs|, 4) == 2 ==> Rem(cs[|cs| - 1], 16) == 0)
    && (Rem(|cs|, 4) == 3 ==> Rem(cs[|cs| - 1], 4) == 0)
  }

  lemma DecodeGroup(a: Byte, b: Byte, c: Byte, rest: seq<Sextet>)
    ensures Decode([S0(a), S1(a, b), S2(b, c), S3(c)] + rest) == [a, b, c] + Decode(rest)
  {
    hide S0, S1, S2, S3, B0, B1, B2, Quot, Rem;
    FirstByte(a, b);
    SecondByte(a, b, c);
    ThirdByte(b, c);
    var cs := [S0(a), S1(a, b), S2(b, c), S3(c)] + rest;
    assert cs[4..] == rest;
  }

  lemma EncodeGroup(p: Sextet, q: Sextet, r: Sextet, s: Sextet, rest: seq<Byte>)
    ensures Encode([B0(p, q), B1(q, r), B2(r, s)] + rest) == [p, q, r, s] + Encode(rest)
  {
    hide S0, S1, S2, S3, B0, B1, B2, Quot, Rem;
    GroupEncodes(p, q, r, s);
    var bs := [B0(p, q), B1(q, r), B2(r, s)] + rest;
    assert bs[3..] == rest;
  }

  lemma {:induction false} DecodeEncode(bs: seq<Byte>)
    ensures Decode(Encode(bs)) == bs
  {
    hide S0, S1, S2, S3, B0, B1, B2, Quot, Rem;
    if |bs| == 1 {
      FirstByte(bs[0], 0);
    } else if |bs| == 2 {
      FirstByte(bs[0], bs[1]);
      SecondByte(bs[0], bs[1], 0);
    } else if |bs| >= 3 {
      DecodeEncode(bs[3..]);
      DecodeGroup(bs[0], bs[1], bs[2], Encode(bs[3..]));
    }
  }

  lemma SpareBitsAreZero(a: Byte, b: Byte)
    ensures Rem(S1(a, 0), 16) == 0 && Rem(S2(b, 0), 4) == 0
  {
    hide S0, S1, S2, S3, B0, B1, B2, Quot, Rem;
    S1Is(a, 0);
    S2Is(b, 0);
    Cut(S1(a, 0), 16);
    Cut(S2(b, 0), 4);
  }

  lemma {:induction false} EncodeIsCanonical(bs: seq<Byte>)
    ensures Canonical(Encode(bs))
  {
    hide S0, S1, S2, S3, Quot;
    if 1 <= |bs| <= 2 {
      SpareBitsAreZero(bs[0], bs[|bs| - 1]);
    } else if |bs| >= 3 {
      EncodeIsCanonical(bs[3..]);
      var tail := Encode(bs[3..]);
      assert tail != [] ==> Encode(bs)[|Encode(bs)| - 1] == tail[|tail| - 1];
    }
  }

  lemma LastPair(p: Sextet, q: Sextet)
    requires Rem(q, 16) == 0
    ensures S0(B0(p, q)) == p && S1(B0(p, q), 0) == q
  {
    hide S0, S1, S2, S3, B0, B1, B2, Quot, Rem;
    B0Is(p, q);
    S0Is(B0(p, q));
    S1Is(B0(p, q), 0);
    Split4(p, q / 16);
    Cut(q, 16);
  }

  lemma LastTriple(p: Sextet, q: Sextet, r: Sextet)
    requires Rem(r, 4) == 0
    ensures S0(B0(p, q)) == p && S1(B0(p, q), B1(q, r)) == q && S2(B1(q, r), 0) == r
  {
    hide S0, S1, S2, S3, B0, B1, B2, Quot, Rem;
    B0Is(p, q);
    B1Is(q, r);
    S0Is(B0(p, q));
    S1Is(B0(p, q), B1(q, r));
    S2Is(B1(q, r), 0);
    Split4(p, q / 16);
    Split16(q % 16, r / 4);
    Cut(r, 4);
  }

  /** Decoding is injective on canonical runs: re-encoding gives the run back. */
  lemma {:induction false} EncodeDecode(cs: seq<Sextet>)
    requires Canonical(cs)
    ensures Encode(Decode(cs)) == cs
  {
    hide S0, S1, S2, S3, B0, B1, B2, Quot;
    if |cs| >= 4 {
      EncodeDecode(cs[4..]);
      EncodeGroup(cs[0], cs[1], cs[2], cs[3], Decode(cs[4..]));
    } else if |cs| == 2 {
      LastPair(cs[0], cs[1]);
    } else if |cs| == 3 {
      LastTriple(cs[0], cs[1], cs[2]);
    }
  }

  /** Whole quads decode independently of what follows. */
  lemma {:induction false} DecodeConcat(a: seq<Sextet>, b: seq<Sextet>)
    requires |a| % 4 == 0
    ensures Decode(a + b) == Decode(a) + Decode(b)
  {
    if a == [] {
      assert a + b == b;
    } else {
      assert (a + b)[4..] == a[4..] + b;
      DecodeConcat(a[4..], b);
    }
  }

  /** The standard alphabet of section 4 of RFC 4648. */
  function StdLetter(c: Sextet): Byte {
    if c < 26 then 'A' as int + c
    else if c < 52 then 'a' as int + c - 26
    else if c < 62 then '0' as int + c - 52
    else if c == 62 then '+' as int else '/' as int
  }

  function StdText(cs: seq<Sextet>): seq<Byte> {
    seq(|cs|, i requires 0 <= i < |cs| => StdLetter(cs[i]))
  }

  // The same code read as a bit stream, most significant bit first.

  function Pow2(k: nat): nat {
    if k == 0 then 1 else 2 * Pow2(k - 1)
  }

  function Bits(x: nat, width: nat): (r: seq<bool>)
    ensures |r| == width
  {
    if width == 0 then [] else Bits(x / 2, width - 1) + [x % 2 == 1]
  }

  function ByteBits(bs: seq<Byte>): (r: seq<bool>)
    ensures |r| == 8 * |bs|
  {
    if bs == [] then [] else Bits(bs[0], 8) + ByteBits(bs[1..])
  }

  function SextetBits(cs: seq<Sextet>): (r: seq<bool>)
    ensures |r| == 6 * |cs|
  {
    if cs == [] then [] else Bits(cs[0], 6) + SextetBits(cs[1..])
  }

  lemma HalveSum(q: nat, y: nat)
    ensures (2 * q + y) / 2 == q + y / 2 && (2 * q + y) % 2 == y % 2
  {
  }

  lemma Doubles(x: nat, p: nat)
    ensures x * (2 * p) == 2 * (x * p)
  {
  }

  /** Placing y in the k low bits under x puts its bits after those of x. */
  lemma {:induction false} BitsJoin(x: nat, y: nat, w: nat, k: nat)
    requires y < Pow2(k)
    ensures Bits(x * Pow2(k) + y, w + k) == Bits(x, w) + Bits(y, k)
  {
    if k == 0 {
      assert Bits(x, w) + [] == Bits(x, w);
    } else {
      var q, n := x * Pow2(k - 1), x * Pow2(k) + y;
      Doubles(x, Pow2(k - 1));
      HalveSum(q, y);
      BitsJoin(x, y / 2, w, k - 1);
      var bit := [y % 2 == 1];
      assert Bits(n, w + k) == Bits(q + y / 2, w + k - 1) + bit;
      assert Bits(x, w) + (Bits(y / 2, k - 1) + bit) == (Bits(x, w) + Bits(y / 2, k - 1)) + bit;
    }
  }

  lemma Join2(x: nat, y: nat, w: nat)
    requires y < 4
    ensures Bits(x * 4 + y, w + 2) == Bits(x, w) + Bits(y, 2)
  {
    assert Pow2(2) == 4;
    BitsJoin(x, y, w, 2);
  }

  lemma Join4(x: nat, y: nat, w: nat)
    requires y < 16
    ensures Bits(x * 16 + y, w + 4) == Bits(x, w) + Bits(y, 4)
  {
    assert Pow2(4) == 16;
    BitsJoin(x, y, w, 4);
  }

  lemma Join6(x: nat, y: nat, w: nat)
    requires y < 64
    ensures Bits(x * 64 + y, w + 6) == Bits(x, w) + Bits(y, 6)
  {
    hide Bits;
    assert Pow2(6) == 64 by { assert Pow2(5) == 32; }
    BitsJoin(x, y, w, 6);
  }

  lemma B0Bits(p: Sextet, q: Sextet)
    ensures Bits(B0(p, q), 8) == Bits(p, 6) + Bits(q / 16, 2)
    ensures Bits(q, 6) == Bits(q / 16, 2) + Bits(q % 16, 4)
  {
    hide Bits, B0, B1, B2, Quot, Rem;
    B0Is(p, q);
    Join2(p, q / 16, 6);
    Join4(q / 16, q % 16, 2);
  }

  lemma B1Bits(q: Sextet, r: Sextet)
    ensures Bits(B1(q, r), 8) == Bits(q % 16, 4) + Bits(r / 4, 4)
    ensures Bits(r, 6) == Bits(r / 4, 4) + Bits(r % 4, 2)
  {
    hide Bits, B0, B1, B2, Quot, Rem;
    B1Is(q, r);
    Join4(q % 16, r / 4, 4);
    Join2(r / 4, r % 4, 4);
  }

  lemma B2Bits(r: Sextet, s: Sextet)
    ensures Bits(B2(r, s), 8) == Bits(r % 4, 2) + Bits(s, 6)
  {
    hide Bits, B0, B1, B2, Quot, Rem;
    B2Is(r, s);
    Join6(r % 4, s, 2);
  }

  /** Three bytes and the four sextets they come from are the same 24 bits. */
  lemma GroupBits(p: Sextet, q: Sextet, r: Sextet, s: Sextet)
    ensures Bits(B0(p, q), 8) + Bits(B1(q, r), 8) + Bits(B2(r, s), 8)
         == Bits(p, 6) + Bits(q, 6) + Bits(r, 6) + Bits(s, 6)
    ensures Bits(B0(p, q), 8) + Bits(B1(q, r), 8) == (Bits(p, 6) + Bits(q, 6) + Bits(r, 6))[..16]
    ensures Bits(B0(p, q), 8) == (Bits(p, 6) + Bits(q, 6))[..8]
  {
    hide B0, B1, B2, Bits, Quot, Rem;
    B0Bits(p, q);
    B1Bits(q, r);
    B2Bits(r, s);
    Regroup(Bits(p, 6), Bits(q / 16, 2), Bits(q % 16, 4), Bits(r / 4, 4), Bits(r % 4, 2), Bits(s, 6));
  }

  lemma Regroup(a: seq<bool>, b: seq<bool>, c: seq<bool>, d: seq<bool>, e: seq<bool>, f: seq<bool>)
    requires |a| + |b| == 8 && |c| + |d| == 8
    ensures (a + b) + (c + d) + (e + f) == a + (b + c) + (d + e) + f
    ensures (a + b) + (c + d) == (a + (b + c) + (d + e))[..16]
    ensures a + b == (a + (b + c))[..8]
  {
  }

  lemma ByteStep(bs: seq<Byte>, i: nat)
    requires i < |bs|
    ensures ByteBits(bs[i..]) == Bits(bs[i], 8) + ByteBits(bs[i + 1..])
  {
    hide Bits;
    assert bs[i..][1..] == bs[i + 1..];
  }

  lemma SextetStep(cs: seq<Sextet>, i: nat)
    requires i < |cs|
    ensures SextetBits(cs[i..]) == Bits(cs[i], 6) + SextetBits(cs[i + 1..])
  {
    hide Bits;
    assert cs[i..][1..] == cs[i + 1..];
  }

  lemma ShortGroupBits(p: Sextet, q: Sextet, r: Sextet)
    ensures ByteBits([B0(p, q)]) == SextetBits([p, q])[..8]
    ensures ByteBits([B0(p, q), B1(q, r)]) == SextetBits([p, q, r])[..16]
  {
    hide B0, B1, B2, Bits, Quot, Rem;
    GroupBits(p, q, r, 0);
    SextetStep([p, q], 1);
    SextetStep([p, q, r], 1);
    SextetStep([p, q, r], 2);
    ByteStep([B0(p, q), B1(q, r)], 1);
    assert SextetBits([p, q]) == Bits(p, 6) + Bits(q, 6);
    assert SextetBits([p, q, r]) == Bits(p, 6) + Bits(q, 6) + Bits(r, 6);
  }

  /** Decoding regroups the sextets' bits into as many whole bytes as they fill. */
  lemma {:induction false} DecodeRegroupsBits(cs: seq<Sextet>)
    ensures |Decode(cs)| == 6 * |cs| / 8
    ensures ByteBits(Decode(cs)) == SextetBits(cs)[..8 * (6 * |cs| / 8)]
  {
    hide B0, B1, B2, Bits, Quot, Rem;
    if |cs| >= 4 {
      DecodeRegroupsBits(cs[4..]);
      QuadBits(cs);
      var g := Bits(cs[0], 6) + Bits(cs[1], 6) + Bits(cs[2], 6) + Bits(cs[3], 6);
      var n := 8 * (6 * |cs[4..]| / 8);
      assert (g + SextetBits(cs[4..]))[..24 + n] == g + SextetBits(cs[4..])[..n];
    } else if |cs| >= 2 {
      ShortGroupBits(cs[0], cs[1], cs[|cs| - 1]);
      assert cs == if |cs| == 2 then [cs[0], cs[1]] else [cs[0], cs[1], cs[2]];
    }
  }

  lemma Flatten4(a: seq<bool>, b: seq<bool>, c: seq<bool>, d: seq<bool>, x: seq<bool>)
    ensures a + (b + (c + (d + x))) == a + b + c + d + x
    ensures a + (b + (c + x)) == a + b + c + x
  {
  }

  lemma SextetQuad(cs: seq<Sextet>)
    requires |cs| >= 4
    ensures SextetBits(cs) == Bits(cs[0], 6) + Bits(cs[1], 6) + Bits(cs[2], 6) + Bits(cs[3], 6) + SextetBits(cs[4..])
  {
    hide Bits;
    SextetStep(cs, 1);
    SextetStep(cs, 2);
    SextetStep(cs, 3);
    Flatten4(Bits(cs[0], 6), Bits(cs[1], 6), Bits(cs[2], 6), Bits(cs[3], 6), SextetBits(cs[4..]));
  }

  lemma ByteTriple(bs: seq<Byte>)
    requires |bs| >= 3
    ensures ByteBits(bs) == Bits(bs[0], 8) + Bits(bs[1], 8) + Bits(bs[2], 8) + ByteBits(bs[3..])
  {
    hide Bits;
    ByteStep(bs, 1);
    ByteStep(bs, 2);
    Flatten4(Bits(bs[0], 8), Bits(bs[1], 8), Bits(bs[2], 8), [], ByteBits(bs[3..]));
  }

  lemma QuadBits(cs: seq<Sextet>)
    requires |cs| >= 4
    ensures var g := Bits(cs[0], 6) + Bits(cs[1], 6) + Bits(cs[2], 6) + Bits(cs[3], 6);
            ByteBits(Decode(cs)) == g + ByteBits(Decode(cs[4..])) && SextetBits(cs) == g + SextetBits(cs[4..])
  {
    hide B0, B1, B2, Quot, Rem, Bits, ByteBits, SextetBits;
    GroupBits(cs[0], cs[1], cs[2], cs[3]);
    assert Decode(cs)[3..] == Decode(cs[4..]);
    ByteTriple(Decode(cs));
    SextetQuad(cs);
  }
}
