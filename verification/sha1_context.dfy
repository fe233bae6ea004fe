/** The streaming SHA-1 context: a 64-byte buffer, a bit count in two words, and the padding at the end. */
module Sha1Context {
  import opened Words
  import opened Sha1Spec
  import opened Sha1

  const TWO29: int := 0x2000_0000

  // ----- the bit count -----

  /** The low word of the count after len more bytes. */
  function Count0(c0: u32, len: u32): u32 {
    (c0 + len * 8 % TWO32) % TWO32
  }

  /** The high word: it only changes when the low word wraps. */
  function Count1(c0: u32, c1: u32, len: u32): u32 {
    if Count0(c0, len) < c0 then (c1 + len / TWO29 + 1) % TWO32 else c1
  }

  /** The two words hold the length in bits of n bytes, modulo 2^64. */
  predicate Counted(c0: u32, c1: u32, n: nat) {
    c0 == 8 * n % TWO32 && c1 == 8 * n / TWO32 % TWO32
  }

  lemma LowCount(c0: u32, n: nat, len: u32)
    requires c0 == 8 * n % TWO32
    ensures Count0(c0, len) == 8 * (n + len) % TWO32
  {}

  /** The bits a length moves into the high word. */
  lemma Carry(c0: u32, len: u32)
    ensures var sum := c0 + 8 * len;
            && Count0(c0, len) == sum % TWO32
            && sum / TWO32 == len / TWO29 + (if Count0(c0, len) < c0 then 1 else 0)
            && len / TWO29 <= 7
  {
    var q, r := len / TWO29, len % TWO29;
    assert 8 * len == TWO32 * q + 8 * r;
  }

  lemma HighCount(n: nat, len: u32)
    ensures 8 * (n + len) / TWO32 == 8 * n / TWO32 + (8 * n % TWO32 + 8 * len) / TWO32
  {
    var q, r := 8 * n / TWO32, 8 * n % TWO32;
    assert 8 * (n + len) == TWO32 * q + (r + 8 * len);
  }

  /** The count stays right over an update exactly when the update is shorter than 2^29 bytes or the low word
      wraps. */
  lemma CountExact(c0: u32, c1: u32, n: nat, len: u32)
    requires Counted(c0, c1, n)
    ensures Counted(Count0(c0, len), Count1(c0, c1, len), n + len) <==> len < TWO29 || Count0(c0, len) < c0
  {
    LowCount(c0, n, len);
    Carry(c0, len);
    HighCount(n, len);
    HighWord(8 * n / TWO32, len / TWO29 + (if Count0(c0, len) < c0 then 1 else 0));
    hide Count0;
  }

  lemma HighWord(h: nat, d: nat)
    requires d <= 8
    ensures (h % TWO32 + d) % TWO32 == (h + d) % TWO32
    ensures (h + d) % TWO32 == h % TWO32 <==> d == 0
  {}

  /** The buffer position is the message length modulo 64, whatever the high word holds. */
  lemma BufferPosition(c0: u32, n: nat)
    requires c0 == 8 * n % TWO32
    ensures c0 / 8 % 64 == n % 64
  {
    var q := 8 * n / TWO32;
    assert c0 / 8 == n - TWO29 * q && TWO29 * q == 64 * (0x80_0000 * q);
    SameMod(n, c0 / 8, 0x80_0000 * q);
  }

  lemma SameMod(n: nat, m: nat, q: int)
    requires m == n - 64 * q
    ensures m % 64 == n % 64
  {}

  lemma InLastBlock(c0: u32, n: nat, h: nat)
    requires c0 == 8 * n % TWO32 && h % 64 == 0 && h <= n < h + 64
    ensures c0 / 8 % 64 == n - h
  {
    BufferPosition(c0, n);
  }

  // ----- the length field -----

  /** A shift right by a whole number of bytes, and the mask 255. */
  function Digit(x: nat, d: nat): byte
    requires d > 0
  {
    x / d % 0x100
  }

  /** The four bytes of a count word, most significant first. */
  function CountWordBytes(c: u32): (s: seq<byte>)
    ensures |s| == 4
  {
    [Digit(c, 0x100_0000), Digit(c, 0x1_0000), Digit(c, 0x100), Digit(c, 1)]
  }

  /** finalcount: the high word, then the low word. */
  function FinalCount(c0: u32, c1: u32): (s: seq<byte>)
    ensures |s| == 8
  {
    CountWordBytes(c1) + CountWordBytes(c0)
  }

  lemma BigEndianWord(x: nat)
    ensures BigEndian(x, 4) == CountWordBytes(x % TWO32)
  {
    BigEndianDigits(x);
    hide BigEndian, Digit;
    WordDigits(x);
  }

  lemma BigEndianDigits(x: nat)
    ensures BigEndian(x, 4) == [Digit(x, 0x100_0000), Digit(x, 0x1_0000), Digit(x, 0x100), Digit(x, 1)]
  {
    assert x / 0x100 / 0x100 == x / 0x1_0000 && x / 0x1_0000 / 0x100 == x / 0x100_0000;
    assert BigEndian(x / 0x100_0000, 1) == [Digit(x, 0x100_0000)];
    assert BigEndian(x / 0x1_0000, 2) == [Digit(x, 0x100_0000), Digit(x, 0x1_0000)];
    assert BigEndian(x / 0x100, 3) == [Digit(x, 0x100_0000), Digit(x, 0x1_0000), Digit(x, 0x100)];
  }

  lemma WordDigits(x: nat)
    ensures Digit(x % TWO32, 0x100_0000) == Digit(x, 0x100_0000)
    ensures Digit(x % TWO32, 0x1_0000) == Digit(x, 0x1_0000)
    ensures Digit(x % TWO32, 0x100) == Digit(x, 0x100)
    ensures Digit(x % TWO32, 1) == Digit(x, 1)
  {
    hide Digit;
    DigitKept(x, 0x100_0000, 1);
    DigitKept(x, 0x1_0000, 0x100);
    DigitKept(x, 0x100, 0x1_0000);
    DigitKept(x, 1, 0x100_0000);
  }

  lemma DigitKept(x: nat, d: nat, m: nat)
    requires d > 0 && m > 0 && d * (0x100 * m) == TWO32
    ensures Digit(x % TWO32, d) == Digit(x, d)
  {
    DigitsAt(x, d, 0x100 * m);
    ModOfMod(x / d, m);
  }

  lemma ModOfMod(y: nat, m: nat)
    requires m > 0
    ensures y % (0x100 * m) % 0x100 == y % 0x100
  {
    var q, r := y / (0x100 * m), y % (0x100 * m);
    assert y == 0x100 * (m * q) + r;
    assert r == 0x100 * (r / 0x100) + r % 0x100;
    ModUnique(y, 0x100, m * q + r / 0x100, r % 0x100);
  }

  /** The digits of a remainder are the low digits of the number. */
  lemma DigitsAt(x: nat, d: nat, m: nat)
    requires d > 0 && m > 0 && d * m == TWO32
    ensures x % TWO32 / d == x / d % m
  {
    var y := x / d;
    var r := y % m;
    assert x == d * y + x % d && y == m * (y / m) + r;
    assert d * (m * (y / m)) == TWO32 * (y / m);
    assert d * y == d * (m * (y / m)) + d * r;
    MulGap(r, m, d);
    MulNonNegative(d, r);
    ModUnique(x, TWO32, y / m, d * r + x % d);
    ModUnique(x % TWO32, d, r, x % d);
  }

  lemma BigEndianMore(x: nat, n: nat)
    ensures BigEndian(x, n + 1) == BigEndian(x / 0x100, n) + [x % 0x100]
  {}

  lemma BigEndianSplit(x: nat)
    ensures BigEndian(x, 8) == BigEndian(x / TWO32, 4) + BigEndian(x, 4)
  {
    var y := x / 0x100;
    var z := y / 0x100;
    var u := z / 0x100;
    assert u / 0x100 == x / TWO32;
    BigEndianMore(x, 7);
    BigEndianMore(y, 6);
    BigEndianMore(z, 5);
    BigEndianMore(u, 4);
    BigEndianMore(x, 3);
    BigEndianMore(y, 2);
    BigEndianMore(z, 1);
    BigEndianMore(u, 0);
    assert BigEndian(u / 0x100, 0) == [];
    hide BigEndian;
  }

  /** Right count words print as the length field of the standard, for messages of any length. */
  lemma FinalCountIsLength(c0: u32, c1: u32, n: nat)
    requires Counted(c0, c1, n)
    ensures FinalCount(c0, c1) == BigEndian(8 * n, 8)
  {
    hide BigEndian, CountWordBytes;
    BigEndianSplit(8 * n);
    BigEndianWord(8 * n);
    BigEndianWord(8 * n / TWO32);
  }

  // ----- the context -----

  lemma HashMore(s: seq<byte>, block: seq<byte>)
    requires |s| % 64 == 0 && |block| == 64
    ensures |s + block| % 64 == 0 && HashBlocks(s + block) == Compress(HashBlocks(s), block)
  {
    assert (s + block)[..|s|] == s && (s + block)[|s|..] == block;
  }

  lemma Joined(s: seq<byte>, a: seq<byte>, b: seq<byte>)
    requires |s| == |a| + |b| && s[..|a|] == a && s[|a|..] == b
    ensures s == a + b
  {}

  lemma Assoc(a: seq<byte>, b: seq<byte>, c: seq<byte>)
    ensures a + b + c == a + (b + c)
  {}

  lemma TakeMore(before: seq<byte>, data: seq<byte>, i: nat, n: nat)
    requires i + n <= |data|
    ensures before + data[..i] + data[i..i + n] == before + data[..i + n]
  {}

  /** The message, a one bit, zeros and eight bytes of length. */
  function PadWith(message: seq<byte>, length: seq<byte>): (p: seq<byte>)
    requires |length| == 8
    ensures |p| % 64 == 0
  {
    message + ([0x80] + Zeros(ZeroCount(|message|)) + length)
  }

  lemma PadForm(message: seq<byte>, length: seq<byte>)
    requires |length| == 8
    ensures message + [0x80] + Zeros(ZeroCount(|message|)) + length == PadWith(message, length)
  {}

  /** What SHA1Final makes of a message and its count words. */
  function FinalDigest(message: seq<byte>, c0: u32, c1: u32): seq<byte> {
    StateBytes(HashBlocks(PadWith(message, FinalCount(c0, c1))))
  }

  /** With right count words the digest is that of the standard. */
  lemma FinalDigestIsSha1(message: seq<byte>, c0: u32, c1: u32)
    requires Counted(c0, c1, |message|)
    ensures FinalDigest(message, c0, c1) == Sha1Spec.Sha1(message)
  {
    FinalCountIsLength(c0, c1, |message|);
    hide HashBlocks, StateBytes, FinalCount, BigEndian;
  }

  lemma Mask504(c: u32)
    ensures And(c, 504) == c / 8 % 64 * 8
  {
    assert Pow2(3) == 8 && Pow2(6) == 64;
    AndHigh(c, 6, 3);
  }

  lemma AtZero(n: nat, k: nat)
    requires k <= ZeroCount(n)
    ensures (n + 1 + k) % 64 == 56 <==> k == ZeroCount(n)
  {}

  lemma ZeroBound(n: nat)
    ensures 0 <= ZeroCount(n)
  {}

  lemma NoZeros(s: seq<byte>)
    ensures s == s + Zeros(0)
  {}

  lemma MoreZeros(s: seq<byte>, k: nat)
    ensures s + Zeros(k) + [0] == s + Zeros(k + 1)
  {}

  lemma Shifts()
    ensures Pow2(0) == 1 && Pow2(8) == 0x100 && Pow2(16) == 0x1_0000 && Pow2(24) == 0x100_0000
  {
    Pow2Values();
    Pow2Add(16, 8);
  }

  lemma DigestForm(message: seq<byte>, c0: u32, c1: u32)
    ensures FinalDigest(message, c0, c1) == StateBytes(HashBlocks(PadWith(message, FinalCount(c0, c1))))
  {}

  ghost predicate DigestPart(state: seq<word>, digest: seq<byte>, n: nat) {
    |state| == 5 && |digest| == 20 && n <= 20
    && forall k :: 0 <= k < n ==> digest[k] == ByteOf(state[k / 4], k % 4)
  }

  lemma DigestNone(state: seq<word>, digest: seq<byte>)
    requires |state| == 5 && |digest| == 20
    ensures DigestPart(state, digest, 0)
  {}

  lemma DigestMore(state: seq<word>, d: seq<byte>, d': seq<byte>, n: nat)
    requires DigestPart(state, d, n) && n < 20 && d' == d[n := ByteOf(state[n / 4], n % 4)]
    ensures DigestPart(state, d', n + 1)
  {
    hide ByteOf;
  }

  lemma DigestDone(state: seq<word>, digest: seq<byte>, h: Five)
    requires DigestPart(state, digest, 20) && Holds(state, h)
    ensures digest == StateBytes(h)
  {
    StateWords(state, h);
    hide ByteOf, Holds;
    DigestWord(state, digest, 0);
    DigestWord(state, digest, 1);
    DigestWord(state, digest, 2);
    DigestWord(state, digest, 3);
    DigestWord(state, digest, 4);
    FiveParts(digest);
    hide DigestPart, WordBytes;
  }

  lemma FiveParts(d: seq<byte>)
    requires |d| == 20
    ensures d[0..4] + d[4..8] + d[8..12] + d[12..16] + d[16..20] == d
  {
    assert d[0..4] + d[4..8] == d[..8];
    assert d[..8] + d[8..12] == d[..12];
    assert d[..12] + d[12..16] == d[..16];
  }

  lemma DigestWord(state: seq<word>, digest: seq<byte>, j: nat)
    requires DigestPart(state, digest, 20) && j < 5
    ensures digest[4 * j..4 * j + 4] == WordBytes(state[j])
  {
    hide ByteOf;
    assert digest[4 * j] == ByteOf(state[j], 0) && digest[4 * j + 1] == ByteOf(state[j], 1);
    assert digest[4 * j + 2] == ByteOf(state[j], 2) && digest[4 * j + 3] == ByteOf(state[j], 3);
  }

  class Context {
    const state: array<word>
    const buffer: array<byte>
    var count0: u32
    var count1: u32
    ghost var hashed: seq<byte>

    /** The state is the hash of the whole blocks taken so far. */
    ghost predicate Blocks()
      reads this, state
    {
      state.Length == 5 && state as object != buffer && |hashed| % 64 == 0 && Holds(state[..], HashBlocks(hashed))
    }

    ghost function Pending(): nat
      reads this
    {
      count0 / 8 % 64
    }

    /** The message so far. */
    ghost function Fed(): seq<byte>
      requires buffer.Length == 64
      reads this, buffer
    {
      hashed + buffer[..Pending()]
    }

    ghost predicate Valid()
      reads this, state, buffer
    {
      buffer.Length == 64 && Blocks() && count0 == 8 * |Fed()| % TWO32
    }

    constructor ()
      ensures Valid() && Fed() == [] && count0 == count1 == 0 && fresh(state) && fresh(buffer)
    {
      state := new word[5];
      buffer := new byte[64](_ => 0);
      count0, count1 := 0, 0;
      hashed := [];
      new;
      SetState(INITIAL);
    }

    method SetState(h: Five)
      requires state.Length == 5
      modifies state
      ensures Holds(state[..], h)
    {
      state[0], state[1], state[2], state[3], state[4] := h.a, h.b, h.c, h.d, h.e;
    }

    method CopyIn(at: nat, data: seq<byte>)
      requires buffer.Length == 64 && at + |data| <= 64
      modifies buffer
      ensures buffer[..at] == old(buffer[..at]) && buffer[at..at + |data|] == data
    {
      forall k | 0 <= k < |data| {
        buffer[at + k] := data[k];
      }
    }

    method HashOne(block: seq<byte>)
      requires Blocks() && |block| == 64
      modifies `hashed, state
      ensures Blocks() && hashed == old(hashed) + block
    {
      HashMore(hashed, block);
      hide HashBlocks, Compress, Holds;
      ghost var h := HashBlocks(hashed);
      hashed := hashed + block;
      Transform(state, block, h);
    }

    /** The first block, completed by new data. */
    method HashFirst(p: nat, data: seq<byte>)
      requires Blocks() && buffer.Length == 64 && p < 64 && p + |data| == 64
      modifies `hashed, state, buffer
      ensures Blocks() && hashed == old(hashed) + (old(buffer[..p]) + data)
    {
      ApartFromBuffer();
      hide *;
      ghost var pre := buffer[..p];
      CopyIn(p, data);
      Joined(buffer[..], pre, data);
      HashOne(buffer[..]);
    }

    /** The first block completed by new data, and the whole blocks behind it. */
    method HashWhole(p: nat, data: seq<byte>) returns (i: nat)
      requires Blocks() && buffer.Length == 64 && p < 64 && p + |data| > 63
      modifies `hashed, state, buffer
      ensures Blocks() && 64 - p <= i <= |data| < i + 64
      ensures hashed == old(hashed) + old(buffer[..p]) + data[..i]
    {
      hide *;
      i := 64 - p;
      ghost var before := hashed + buffer[..p];
      Assoc(hashed, buffer[..p], data[..i]);
      HashFirst(p, data[..i]);
      while i + 63 < |data|
        invariant Blocks() && 64 - p <= i <= |data| && hashed == before + data[..i]
      {
        HashOne(data[i..i + 64]);
        TakeMore(before, data, i, 64);
        i := i + 64;
      }
    }

    lemma ApartFromBuffer()
      requires Blocks()
      ensures state as object != buffer && |hashed| % 64 == 0
    {}

    /** SHA1Update: the message grows by the data; the bit count follows in its two words. */
    method Update(data: seq<byte>)
      requires Valid() && |data| <= 0xffff_ffc0
      modifies this, state, buffer
      ensures Valid() && Fed() == old(Fed()) + data
      ensures count0 == Count0(old(count0), |data|) && count1 == Count1(old(count0), old(count1), |data|)
    {
      ghost var before := Fed();
      BufferPosition(count0, |before|);
      LowCount(count0, |before|, |data|);
      var p := count0 / 8 % 64;
      count1 := Count1(count0, count1, |data|);
      count0 := Count0(count0, |data|);
      Buffered(p, data, before);
    }

    /** The copying half of SHA1Update when a block is completed. */
    method BufferedOver(p: nat, data: seq<byte>)
      requires Blocks() && buffer.Length == 64 && p < 64 && p + |data| > 63
      modifies `hashed, state, buffer
      ensures Blocks() && |hashed| % 64 == 0 && |hashed| <= |old(hashed) + old(buffer[..p]) + data| < |hashed| + 64
      ensures hashed + buffer[..|old(hashed) + old(buffer[..p]) + data| - |hashed|]
           == old(hashed) + old(buffer[..p]) + data
    {
      hide *;
      ghost var before := hashed + buffer[..p];
      var i := HashWhole(p, data);
      ApartFromBuffer();
      CopyIn(0, data[i..]);
      Assoc(before, data[..i], data[i..]);
      assert data[..i] + data[i..] == data;
    }

    /** The copying half of SHA1Update. */
    method Buffered(p: nat, data: seq<byte>, ghost before: seq<byte>)
      requires Blocks() && buffer.Length == 64 && p == |before| % 64 && before == hashed + buffer[..p]
      requires count0 == 8 * |before + data| % TWO32
      modifies `hashed, state, buffer
      ensures Valid() && Fed() == before + data
    {
      ApartFromBuffer();
      hide Blocks;
      if p + |data| > 63 {
        BufferedOver(p, data);
      } else {
        ghost var pre := buffer[..p];
        CopyIn(p, data);
        Joined(buffer[..p + |data|], pre, data);
        Assoc(hashed, pre, data);
      }
      Settle(before + data);
    }

    lemma Settle(message: seq<byte>)
      requires Blocks() && buffer.Length == 64 && |hashed| % 64 == 0 && |hashed| <= |message| < |hashed| + 64
      requires message == hashed + buffer[..|message| - |hashed|] && count0 == 8 * |message| % TWO32
      ensures Valid() && Fed() == message
    {
      InLastBlock(count0, |message|, |hashed|);
      hide Blocks;
      assert Pending() == |message| - |hashed|;
      hide Pending;
    }

    /** Zero bytes until 56 bytes of the block are taken. */
    method PadZeros(ghost message: seq<byte>)
      requires Valid() && Fed() == message + [0x80]
      modifies this, state, buffer
      ensures Valid() && Fed() == message + [0x80] + Zeros(ZeroCount(|message|))
    {
      hide *;
      ghost var n := |message|;
      ghost var k := 0;
      NoZeros(message + [0x80]);
      ZeroBound(n);
      FedCount();
      while And(count0, 504) != 448
        invariant Valid() && buffer.Length == 64 && 0 <= k <= ZeroCount(n) && Fed() == message + [0x80] + Zeros(k)
        decreases ZeroCount(n) - k
      {
        GuardSays(n, k, message);
        Update([0]);
        MoreZeros(message + [0x80], k);
        k := k + 1;
      }
      GuardSays(n, k, message);
    }

    lemma GuardSays(n: nat, k: nat, message: seq<byte>)
      requires Valid() && n == |message| && k <= ZeroCount(n) && Fed() == message + [0x80] + Zeros(k)
      ensures And(count0, 504) == 448 <==> k == ZeroCount(n)
    {
      FedCount();
      hide Valid, Fed;
      assert |Fed()| == n + 1 + k;
      hide *;
      BufferPosition(count0, n + 1 + k);
      Mask504(count0);
      AtZero(n, k);
    }

    lemma FedCount()
      requires Valid()
      ensures buffer.Length == 64 && count0 == 8 * |Fed()| % TWO32
    {}

    /** SHA1Final: the digest of the whole message, padded with the length the count words show. */
    method Final(digest: array<byte>)
      requires Valid() && digest.Length == 20 && digest != buffer
      modifies this, state, buffer, digest
      ensures digest[..] == FinalDigest(old(Fed()), old(count0), old(count1))
    {
      FedCount();
      hide *;
      ghost var message := Fed();
      var finalcount := new byte[8];
      WriteCount(finalcount);
      assert finalcount[..] == FinalCount(count0, count1);
      Update([0x80]);
      PadZeros(message);
      Update(finalcount[..]);
      WholeBlocks(message, finalcount[..]);
      WriteDigest(digest, HashBlocks(PadWith(message, finalcount[..])));
      DigestForm(message, old(count0), old(count1));
    }

    lemma WholeBlocks(message: seq<byte>, length: seq<byte>)
      requires Valid() && |length| == 8 && Fed() == message + [0x80] + Zeros(ZeroCount(|message|)) + length
      ensures hashed == PadWith(message, length) && state.Length == 5 && |hashed| % 64 == 0
      ensures Holds(state[..], HashBlocks(PadWith(message, length)))
    {
      BufferPosition(count0, |Fed()|);
      assert |Fed()| == |PadWith(message, length)|;
      hide PadWith, HashBlocks, Holds;
      assert Fed() == PadWith(message, length) by {
        PadForm(message, length);
      }
    }

    method WriteCount(finalcount: array<byte>)
      requires finalcount.Length == 8
      modifies finalcount
      ensures finalcount[..] == FinalCount(count0, count1)
    {
      Shifts();
      hide Pow2, Digit;
      for i := 0 to 8
        invariant forall k :: 0 <= k < i ==> finalcount[k] == FinalCount(count0, count1)[k]
      {
        var word := if i >= 4 then count0 else count1;
        finalcount[i] := Digit(word, Pow2((3 - i % 4) * 8));
      }
    }

    method WriteDigest(digest: array<byte>, ghost h: Five)
      requires state.Length == 5 && digest.Length == 20 && Holds(state[..], h)
      modifies digest
      ensures digest[..] == StateBytes(h)
    {
      hide *;
      DigestNone(state[..], digest[..]);
      for i := 0 to 20
        invariant DigestPart(state[..], digest[..], i)
      {
        ghost var before := digest[..];
        digest[i] := ByteOf(state[i / 4], i % 4);
        DigestMore(state[..], before, digest[..], i);
      }
      DigestDone(state[..], digest[..], h);
    }
  }

  // ----- any split into updates -----

  function Flatten(pieces: seq<seq<byte>>): seq<byte> {
    if pieces == [] then [] else Flatten(pieces[..|pieces| - 1]) + pieces[|pieces| - 1]
  }

  /** The lengths SHA1Update can take without its buffer position wrapping. */
  ghost predicate Feedable(pieces: seq<seq<byte>>) {
    forall k :: 0 <= k < |pieces| ==> |pieces[k]| <= 0xffff_ffc0
  }

  /** The lengths whose bit count fits in one word. */
  ghost predicate Short(pieces: seq<seq<byte>>) {
    forall k :: 0 <= k < |pieces| ==> |pieces[k]| < TWO29
  }

  lemma Piece(pieces: seq<seq<byte>>, i: nat)
    requires Feedable(pieces) && i < |pieces|
    ensures |pieces[i]| <= 0xffff_ffc0 && Flatten(pieces[..i]) + pieces[i] == Flatten(pieces[..i + 1])
  {
    assert pieces[..i + 1][..i] == pieces[..i];
  }

  lemma Ends(pieces: seq<seq<byte>>)
    ensures pieces[..|pieces|] == pieces && Flatten(pieces[..0]) == []
  {}

  lemma CountStart()
    ensures Counted(0, 0, 0)
  {}

  lemma CountPiece(pieces: seq<seq<byte>>, i: nat, c0: u32, c1: u32, message: seq<byte>)
    requires Feedable(pieces) && i < |pieces| && (Short(pieces) ==> Counted(c0, c1, |message|))
    ensures |pieces[i]| < TWO32
    ensures var len := |pieces[i]|;
            Short(pieces) ==> Counted(Count0(c0, len), Count1(c0, c1, len), |message + pieces[i]|)
  {
    if Short(pieces) {
      CountExact(c0, c1, |message|, |pieces[i]|);
    }
  }

  lemma DigestOf(pieces: seq<seq<byte>>, message: seq<byte>, c0: u32, c1: u32)
    requires Short(pieces) ==> Counted(c0, c1, |message|)
    ensures Short(pieces) ==> FinalDigest(message, c0, c1) == Sha1Spec.Sha1(message)
  {
    if Short(pieces) {
      FinalDigestIsSha1(message, c0, c1);
    }
  }

  /** SHA1Init, one SHA1Update for each piece, SHA1Final. */
  method Digest(pieces: seq<seq<byte>>) returns (digest: array<byte>)
    requires Feedable(pieces)
    ensures Short(pieces) ==> digest[..] == Sha1Spec.Sha1(Flatten(pieces))
  {
    hide *;
    var context := new Context();
    digest := new byte[20];
    Ends(pieces);
    CountStart();
    context.FedCount();
    for i := 0 to |pieces|
      invariant context.Valid() && context.buffer.Length == 64 && context.Fed() == Flatten(pieces[..i])
      invariant fresh(context) && fresh(context.state) && fresh(context.buffer) && digest != context.buffer
      invariant Short(pieces) ==> Counted(context.count0, context.count1, |Flatten(pieces[..i])|)
    {
      Piece(pieces, i);
      CountPiece(pieces, i, context.count0, context.count1, Flatten(pieces[..i]));
      context.Update(pieces[i]);
    }
    DigestOf(pieces, Flatten(pieces), context.count0, context.count1);
    context.Final(digest);
  }
}
