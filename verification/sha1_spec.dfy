/** SHA-1 as the standard defines it (FIPS PUB 180-1, sections 2 to 7). */
module Sha1Spec {
  import opened Words

  type word = bv32

  /** The circular left shift of section 3. */
  function Rol(x: word, n: nat): word
    requires 0 < n < 32
  {
    (x << n) | (x >> (32 - n))
  }

  /** The five words of a state or of the working buffer. */
  datatype Five = Five(a: word, b: word, c: word, d: word, e: word)

  const INITIAL := Five(0x67452301, 0xEFCDAB89, 0x98BADCFE, 0x10325476, 0xC3D2E1F0)

  function Choose(b: word, c: word, d: word): word { (b & c) | (!b & d) }

  function Parity(b: word, c: word, d: word): word { b ^ c ^ d }

  function Majority(b: word, c: word, d: word): word { (b & c) | (b & d) | (c & d) }

  /** The functions of section 5. */
  function F(t: nat, b: word, c: word, d: word): word {
    if t < 20 then Choose(b, c, d)
    else if t < 40 then Parity(b, c, d)
    else if t < 60 then Majority(b, c, d)
    else Parity(b, c, d)
  }

  /** The constants of section 6. */
  function K(t: nat): word {
    if t < 20 then 0x5A827999
    else if t < 40 then 0x6ED9EBA1
    else if t < 60 then 0x8F1BBCDC
    else 0xCA62C1D6
  }

  /** The message schedule of section 7, steps a and b, for the sixteen words of a block. */
  function W(m: seq<word>, t: nat): word
    requires |m| == 16
  {
    if t < 16 then m[t]
    else Rol(W(m, t - 3) ^ W(m, t - 8) ^ W(m, t - 14) ^ W(m, t - 16), 1)
  }

  /** TEMP in section 7, step d. */
  function Temp(t: nat, w: word, s: Five): word {
    Total(Rol(s.a, 5), F(t, s.b, s.c, s.d), s.e, w, K(t))
  }

  function Total(r: word, f: word, e: word, w: word, k: word): word { r + f + e + w + k }

  /** Section 7, step d, for one t. */
  function Step(t: nat, w: word, s: Five): Five {
    Five(Temp(t, w, s), s.a, Rol(s.b, 30), s.c, s.d)
  }

  function Rounds(m: seq<word>, n: nat, s: Five): Five
    requires |m| == 16
  {
    if n == 0 then s else Step(n - 1, W(m, n - 1), Rounds(m, n - 1, s))
  }

  /** Addition modulo 2^32. */
  function Plus(x: word, y: word): word { x + y }

  function Add(s: Five, t: Five): Five {
    Five(Plus(s.a, t.a), Plus(s.b, t.b), Plus(s.c, t.c), Plus(s.d, t.d), Plus(s.e, t.e))
  }

  /** A word from four bytes, the first the most significant. */
  function BeWord(b0: byte, b1: byte, b2: byte, b3: byte): word {
    ((b0 as bv8 as bv32) << 24) | ((b1 as bv8 as bv32) << 16) | ((b2 as bv8 as bv32) << 8) | (b3 as bv8 as bv32)
  }

  function BlockWords(block: seq<byte>): (m: seq<word>)
    requires |block| == 64
    ensures |m| == 16
  {
    seq(16, i requires 0 <= i < 16 => BeWord(block[4 * i], block[4 * i + 1], block[4 * i + 2], block[4 * i + 3]))
  }

  function Compress(h: Five, block: seq<byte>): Five
    requires |block| == 64
  {
    Add(h, Rounds(BlockWords(block), 80, h))
  }

  /** The state after whole blocks. */
  function HashBlocks(s: seq<byte>): Five
    requires |s| % 64 == 0
  {
    if s == [] then INITIAL else Compress(HashBlocks(s[..|s| - 64]), s[|s| - 64..])
  }

  /** A number as n bytes, most significant first. */
  function BigEndian(x: nat, n: nat): (s: seq<byte>)
    ensures |s| == n
  {
    if n == 0 then [] else BigEndian(x / 0x100, n - 1) + [x % 0x100]
  }

  /** The zero bytes between the one bit and the length. */
  function ZeroCount(n: nat): (k: nat)
    ensures (n + 1 + k + 8) % 64 == 0
  {
    if n % 64 <= 55 then 55 - n % 64 else 119 - n % 64
  }

  /** Section 4: a one bit, zeros, and the length in bits as a 64-bit number. */
  function Padding(n: nat): (p: seq<byte>)
    ensures (n + |p|) % 64 == 0
  {
    [0x80] + Zeros(ZeroCount(n)) + BigEndian(8 * n, 8)
  }

  function StateBytes(s: Five): (d: seq<byte>)
    ensures |d| == 20
  {
    WordBytes(s.a) + WordBytes(s.b) + WordBytes(s.c) + WordBytes(s.d) + WordBytes(s.e)
  }

  /** Byte k of a word, 0 the most significant. */
  function ByteOf(w: word, k: nat): byte
    requires k < 4
  {
    ((w >> ((3 - k) * 8)) & 255) as byte
  }

  function WordBytes(w: word): (d: seq<byte>)
    ensures |d| == 4
  {
    [ByteOf(w, 0), ByteOf(w, 1), ByteOf(w, 2), ByteOf(w, 3)]
  }

  /** The message digest. */
  function Sha1(msg: seq<byte>): seq<byte> {
    StateBytes(HashBlocks(msg + Padding(|msg|)))
  }

  // ----- the constants -----

  /** The constants of section 6 are the square roots of 2, 3, 5 and 10, in units of 2^-30. */
  lemma Constants(t: nat)
    requires t < 80
    ensures var n, k := (if t < 20 then 2 else if t < 40 then 3 else if t < 60 then 5 else 10), K(t) as int;
            k * k <= n * 0x1000_0000_0000_0000 < (k + 1) * (k + 1)
  {}
}
