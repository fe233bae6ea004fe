/** The residue of the CRC-32: four more bytes leave a fixed value exactly when they are the checksum of the others. */
module Crc32Residue {
  import opened Words
  import opened Crc32

  // ----- a word from its bytes -----

  /** The bytes of r moved up, and b in front of them. */
  function Push(r: bv32, b: bv8): bv32 { (r << 8) | (b as bv32) }

  /** The word with these bytes, the least significant first. */
  function Word(b0: bv8, b1: bv8, b2: bv8, b3: bv8): bv32 {
    Push(Push(Push(b3 as bv32, b2), b1), b0)
  }

  lemma PushedValue(r: bv32, b: bv8)
    requires r < 0x100_0000
    ensures ((r << 8) | (b as bv32)) as int == r as int * 0x100 + b as int
  {}

  lemma PushValue(r: bv32, b: bv8, n: int, m: int)
    requires r as int == n < 0x100_0000 && b as int == m
    ensures Push(r, b) as int == n * 0x100 + m
  {
    BelowTop(r);
    PushedValue(r, b);
  }

  lemma BelowTop(r: bv32)
    requires r as int < 0x100_0000
    ensures r < 0x100_0000
  {}

  lemma ByteValue(b: bv8, n: int)
    requires b as int == n
    ensures (b as bv32) as int == n && 0 <= n < 0x100
  {}

  /** The word of four bytes is their number in the order of Le32. */
  lemma WordValue(b0: bv8, b1: bv8, b2: bv8, b3: bv8, n0: int, n1: int, n2: int, n3: int)
    requires 0 <= b0 as int == n0 < 0x100 && 0 <= b1 as int == n1 < 0x100
    requires 0 <= b2 as int == n2 < 0x100 && 0 <= b3 as int == n3 < 0x100
    ensures Word(b0, b1, b2, b3) as int == ((n3 * 0x100 + n2) * 0x100 + n1) * 0x100 + n0
  {
    ByteValue(b3, n3);
    hide Push;
    PushValue(b3 as bv32, b2, n3, n2);
    PushValue(Push(b3 as bv32, b2), b1, n3 * 0x100 + n2, n1);
    PushValue(Push(Push(b3 as bv32, b2), b1), b0, (n3 * 0x100 + n2) * 0x100 + n1, n0);
  }

  // ----- four bytes through the register are one word through it -----

  lemma SplitPush(s: bv32, r: bv32, d: bv32)
    requires d < 0x100
    ensures s ^ ((r << 8) | d) == (s ^ d) ^ (r << 8)
    ensures (r << 8) & 0xFF == 0
  {}

  lemma UpAndDown(r: bv32)
    requires r < 0x100_0000
    ensures (r << 8) >> 8 == r
  {}

  lemma WideByte(b: bv8)
    ensures (b as bv32) < 0x100
  {}

  /** One byte through the register. */
  function Feed(s: bv32, b: bv8): bv32 { Shift8(Xor(s, b as bv32)) }

  lemma {:induction false} PushStep(s: bv32, r: bv32, b: bv8)
    requires r < 0x100_0000
    ensures Shift8(Xor(s, Push(r, b))) == Xor(Feed(s, b), r)
  {
    WideByte(b);
    SplitPush(s, r, b as bv32);
    UpAndDown(r);
    hide Shift8;
    Shift8Xor(Xor(s, b as bv32), r << 8);
    Shift8High(r << 8);
  }

  function Shift32(r: bv32): bv32 {
    Shift8(Shift8(Shift8(Shift8(r))))
  }

  lemma ThreeBytes(b1: bv8, b2: bv8, b3: bv8)
    ensures (b3 as bv32) < 0x100_0000 && Push(b3 as bv32, b2) < 0x100_0000 && Push(Push(b3 as bv32, b2), b1) < 0x100_0000
  {}

  /** One more bit at the end of x. */
  function Twice(x: bv8, odd: bool): bv8 { if odd then (x << 1) | 1 else x << 1 }

  lemma DoubleValue(x: bv8)
    requires x < 0x80
    ensures (x << 1) as int == 2 * (x as int) && ((x << 1) | 1) as int == 2 * (x as int) + 1
  {}

  lemma HalfRange(x: bv8)
    requires x as int < 0x80
    ensures x < 0x80
  {}

  lemma TwiceValue(x: bv8, n: int, odd: bool)
    requires 0 <= x as int == n < 0x80
    ensures 0 <= Twice(x, odd) as int == 2 * n + (if odd then 1 else 0)
  {
    HalfRange(x);
    DoubleValue(x);
  }

  /** The last k bits of b. */
  function Bits(b: nat, k: nat): bv8
    decreases k
  {
    if k == 0 then 0 else Twice(Bits(b / 2, k - 1), b % 2 == 1)
  }

  lemma NoBits(b: nat)
    ensures Bits(b, 0) as int == 0
  {}

  lemma BitsStep(b: nat, k: nat, top: nat)
    requires k > 0 && top == Pow2(k) <= 0x100 && b < top
    ensures Bits(b, k) == Twice(Bits(b / 2, k - 1), b % 2 == 1)
    ensures top / 2 == Pow2(k - 1) <= 0x100 && b / 2 < top / 2 && b / 2 < 0x80
  {
    hide Twice;
  }

  lemma {:induction false} BitsValue(b: nat, k: nat, top: nat)
    requires top == Pow2(k) <= 0x100 && b < top
    ensures 0 <= Bits(b, k) as int == b
    decreases k
  {
    if k == 0 {
      NoBits(b);
    } else {
      hide *;
      BitsStep(b, k, top);
      BitsValue(b / 2, k - 1, top / 2);
      TwiceValue(Bits(b / 2, k - 1), b / 2, b % 2 == 1);
    }
  }

  lemma ByteBits(b: byte, w: bv8)
    requires w == Bits(b, 8)
    ensures 0 <= w as int == b < 0x100
  {
    Pow2Values();
    hide *;
    BitsValue(b, 8, 0x100);
  }

  lemma SameByte(b: byte, w: bv8)
    requires w == Bits(b, 8)
    ensures w as bv32 == b as bv32
  {
    hide *;
    ByteBits(b, w);
    ByteValue(w, b);
    WordBack(w as bv32);
  }

  lemma WordBack(a: bv32)
    ensures (a as int) as bv32 == a
  {}

  lemma ByteStep(s: bv32, b: byte)
    ensures Update(s, b) == Feed(s, Bits(b, 8))
  {
    SameByte(b, Bits(b, 8));
    UpdateIsShift8(s, b);
    hide Update, Shift8, Xor, Bits;
  }

  lemma {:induction false} FeedWord(s: bv32, b0: bv8, b1: bv8, b2: bv8, b3: bv8)
    ensures Shift32(Xor(s, Word(b0, b1, b2, b3))) == Feed(Feed(Feed(Feed(s, b0), b1), b2), b3)
  {
    ThreeBytes(b1, b2, b3);
    assert Feed(Feed(Feed(Feed(s, b0), b1), b2), b3) == Shift8(Xor(Feed(Feed(Feed(s, b0), b1), b2), b3 as bv32));
    hide Feed, Shift8, Xor, Push;
    PushStep(s, Push(Push(b3 as bv32, b2), b1), b0);
    PushStep(Feed(s, b0), Push(b3 as bv32, b2), b1);
    PushStep(Feed(Feed(s, b0), b1), b3 as bv32, b2);
  }

  function WordOf(t: seq<byte>): bv32
    requires |t| == 4
  {
    Word(Bits(t[0], 8), Bits(t[1], 8), Bits(t[2], 8), Bits(t[3], 8))
  }

  lemma RunByte(s: bv32, t: seq<byte>)
    requires t != []
    ensures Run(s, t) == Run(Feed(s, Bits(t[0], 8)), t[1..])
  {
    ByteStep(s, t[0]);
    hide Update, Feed, Bits;
  }

  lemma RunNothing(s: bv32, t: seq<byte>)
    requires t == []
    ensures Run(s, t) == s
  {}

  lemma {:induction false} RunIsShift32(s: bv32, t: seq<byte>)
    requires |t| == 4
    ensures Run(s, t) == Shift32(Xor(s, WordOf(t)))
  {
    hide Run, Feed, Xor, Word, Shift32, Bits;
    var s1 := Feed(s, Bits(t[0], 8));
    var s2 := Feed(s1, Bits(t[1], 8));
    var s3 := Feed(s2, Bits(t[2], 8));
    RunByte(s, t);
    RunByte(s1, t[1..]);
    RunByte(s2, t[1..][1..]);
    RunByte(s3, t[1..][1..][1..]);
    RunNothing(Feed(s3, Bits(t[3], 8)), t[1..][1..][1..][1..]);
    FeedWord(s, Bits(t[0], 8), Bits(t[1], 8), Bits(t[2], 8), Bits(t[3], 8));
  }

  // ----- the residue -----

  lemma ShiftInjective(a: bv32, b: bv32)
    requires Shift(a) == Shift(b)
    ensures a == b
  {}

  lemma Shift8Injective(a: bv32, b: bv32)
    requires Shift8(a) == Shift8(b)
    ensures a == b
  {
    hide Shift;
    var x, y := Shift(Shift(Shift(Shift(a)))), Shift(Shift(Shift(Shift(b))));
    ShiftInjective(Shift(Shift(Shift(x))), Shift(Shift(Shift(y))));
    ShiftInjective(Shift(Shift(x)), Shift(Shift(y)));
    ShiftInjective(Shift(x), Shift(y));
    ShiftInjective(x, y);
    ShiftInjective(Shift(Shift(Shift(a))), Shift(Shift(Shift(b))));
    ShiftInjective(Shift(Shift(a)), Shift(Shift(b)));
    ShiftInjective(Shift(a), Shift(b));
    ShiftInjective(a, b);
  }

  lemma Shift32Injective(a: bv32, b: bv32)
    requires Shift32(a) == Shift32(b)
    ensures a == b
  {
    hide Shift8;
    Shift8Injective(Shift8(Shift8(Shift8(a))), Shift8(Shift8(Shift8(b))));
    Shift8Injective(Shift8(Shift8(a)), Shift8(Shift8(b)));
    Shift8Injective(Shift8(a), Shift8(b));
    Shift8Injective(a, b);
  }

  lemma OnesByByte()
    ensures Shift8(0xFFFF_FFFF) == 0x2DFD_1072 && Shift8(0x2DFD_1072) == 0xBE26_ED00
    ensures Shift8(0xBE26_ED00) == 0x00BE_26ED && Shift8(0x00BE_26ED) == 0xDEBB_20E3
  {}

  lemma ComplementOnes(s: bv32)
    ensures Xor(s, Complement(s)) == 0xFFFF_FFFF
    ensures Complement(0xDEBB_20E3) == 0x2144_DF1C && Complement(0x2144_DF1C) == 0xDEBB_20E3
  {}

  lemma XorInjective(s: bv32, a: bv32, b: bv32)
    requires Xor(s, a) == Xor(s, b)
    ensures a == b
  {}

  lemma {:induction false} ResidueRegister(s: bv32, t: seq<byte>)
    requires |t| == 4
    ensures Complement(Run(s, t)) == 0x2144_DF1C <==> WordOf(t) == Complement(s)
  {
    var r := Run(s, t);
    RunIsShift32(s, t);
    OnesByByte();
    ComplementOnes(s);
    ComplementTwice(r);
    hide Run, Shift8, WordOf, Complement, Xor;
    if r == 0xDEBB_20E3 {
      Shift32Injective(Xor(s, WordOf(t)), 0xFFFF_FFFF);
      XorInjective(s, WordOf(t), Complement(s));
    }
  }

  lemma WordOfValue(t: seq<byte>)
    requires |t| == 4
    ensures WordOf(t) as int == FromLe32(t)
  {
    hide *;
    ByteBits(t[0], Bits(t[0], 8));
    ByteBits(t[1], Bits(t[1], 8));
    ByteBits(t[2], Bits(t[2], 8));
    ByteBits(t[3], Bits(t[3], 8));
    FourBytes(t, t[0], t[1], t[2], t[3]);
    WordOfIs(t);
    WordValue(Bits(t[0], 8), Bits(t[1], 8), Bits(t[2], 8), Bits(t[3], 8), t[0], t[1], t[2], t[3]);
  }

  lemma WordOfIs(t: seq<byte>)
    requires |t| == 4
    ensures WordOf(t) == Word(Bits(t[0], 8), Bits(t[1], 8), Bits(t[2], 8), Bits(t[3], 8))
  {
    hide Word, Bits;
  }

  lemma FourBytes(t: seq<byte>, n0: int, n1: int, n2: int, n3: int)
    requires |t| == 4 && t[0] == n0 && t[1] == n1 && t[2] == n2 && t[3] == n3
    ensures FromLe32(t) == ((n3 * 0x100 + n2) * 0x100 + n1) * 0x100 + n0
  {}

  lemma SameWord(a: bv32, b: bv32)
    requires a as int == b as int
    ensures a == b
  {
    WordBack(a);
    WordBack(b);
  }

  lemma Le32Back(t: seq<byte>)
    requires |t| == 4
    ensures Le32(FromLe32(t)) == t
  {
    var lo, hi := FromLe16(t[..2]), FromLe16(t[2..]);
    var n := FromLe32(t);
    assert n % 0x1_0000 == lo && n / 0x1_0000 == hi;
    assert t == t[..2] + t[2..];
  }

  lemma Le32Unique(t: seq<byte>, n: u32)
    requires |t| == 4
    ensures FromLe32(t) == n <==> t == Le32(n)
  {
    assert TWO32 == 0x1_0000_0000;
    hide *;
    Le32RoundTrip(n);
    Le32Back(t);
  }

  /** A message and four more bytes leave the residue of the CRC-32 (section 3.2.9 of IEEE 802.3-2012, after the final
      inversion) exactly when the four are the checksum of the message, low byte first. */
  lemma {:induction false} Residue(data: seq<byte>, t: seq<byte>)
    requires |t| == 4
    ensures Crc(0, data + t) == 0x2144_DF1C <==> t == Le32(Checksum(data))
  {
    var c := Crc(0, data);
    CrcAppend(0, data, t);
    ResidueRegister(Complement(c), t);
    ComplementTwice(c);
    WordOfValue(t);
    Le32Unique(t, Checksum(data));
    if Checksum(data) == FromLe32(t) {
      SameWord(WordOf(t), c);
    }
    hide Run, WordOf, Complement, Le32, FromLe32;
  }

  // ----- changed bytes are detected -----

  lemma UpdateInjective(r: bv32, s: bv32, b: byte)
    requires Update(r, b) == Update(s, b)
    ensures r == s
  {
    ByteRange(b);
    UpdateIsShift8(r, b);
    UpdateIsShift8(s, b);
    hide Update, Shift8, Xor;
    var d := b as bv32;
    Shift8Injective(Xor(r, d), Xor(s, d));
    XorCommutative(r, d);
    XorCommutative(s, d);
    XorInjective(d, r, s);
  }

  lemma {:induction false} RunInjective(r: bv32, s: bv32, data: seq<byte>)
    requires Run(r, data) == Run(s, data)
    ensures r == s
    decreases |data|
  {
    hide Update;
    if data != [] {
      RunInjective(Update(r, data[0]), Update(s, data[0]), data[1..]);
      UpdateInjective(r, s, data[0]);
    }
  }

  /** Messages that differ within four bytes have different checksums. */
  lemma {:induction false} BurstDetected(a: seq<byte>, w: seq<byte>, v: seq<byte>, b: seq<byte>)
    requires |w| == |v| == 4 && w != v
    ensures Checksum(a + w + b) != Checksum(a + v + b)
  {
    hide *;
    var s := Run(Complement(0), a);
    ChecksumParts(a, w, b);
    ChecksumParts(a, v, b);
    if Checksum(a + w + b) == Checksum(a + v + b) {
      ChecksumIs(a + w + b);
      ChecksumIs(a + v + b);
      SameWord(Crc(0, a + w + b), Crc(0, a + v + b));
      RunInjective(Run(s, w), Run(s, v), b);
      RunIsShift32(s, w);
      RunIsShift32(s, v);
      Shift32Injective(Xor(s, WordOf(w)), Xor(s, WordOf(v)));
      XorInjective(s, WordOf(w), WordOf(v));
      WordOfValue(w);
      WordOfValue(v);
      Le32Unique(w, FromLe32(v));
      Le32Unique(v, FromLe32(v));
    }
  }

  lemma ChecksumIs(data: seq<byte>)
    ensures Checksum(data) == Crc(0, data) as int
  {
    hide Crc;
  }

  lemma ChecksumParts(a: seq<byte>, w: seq<byte>, b: seq<byte>)
    ensures Complement(Crc(0, a + w + b)) == Run(Run(Run(Complement(0), a), w), b)
  {
    hide *;
    CrcParts(0, a + w + b);
    RunAppend(Complement(0), a + w, b);
    RunAppend(Complement(0), a, w);
  }
}
