/** The CRC-32 of the sparse image format: a table-driven register update, and what it computes. */
module Crc32 {
  import opened Words

  // Register operations are named so that proofs can hide them and reason by equations alone.

  function Xor(a: bv32, b: bv32): bv32 { a ^ b }

  function Low8(r: bv32): (x: bv32)
    ensures x < 0x100
  {
    r & 0xFF
  }

  function High24(r: bv32): bv32 { r & 0xFFFF_FF00 }

  function Down8(r: bv32): bv32 { r >> 8 }

  // ----- xor identities -----

  lemma XorShift(a: bv32, b: bv32)
    ensures (a ^ b) >> 1 == (a >> 1) ^ (b >> 1)
    ensures (a ^ b) & 1 == (a & 1) ^ (b & 1)
  {}

  lemma LowBit(a: bv32)
    ensures a & 1 == 0 || a & 1 == 1
  {}

  // ----- the reference: one shift/xor step per message bit -----

  const POLYNOMIAL: bv32 := 0xedb88320

  /** One step of the reflected shift register. */
  function Shift(r: bv32): bv32 {
    if r & 1 == 1 then (r >> 1) ^ POLYNOMIAL else r >> 1
  }

  /** Eight steps: the register after a byte has been shifted through. */
  function Shift8(r: bv32): bv32 {
    Shift(Shift(Shift(Shift(Shift(Shift(Shift(Shift(r))))))))
  }

  function Feedback(r: bv32): bv32 {
    if r & 1 == 1 then POLYNOMIAL else 0
  }

  function Half(d: bv32): bv32 { d >> 1 }

  lemma ShiftParts(r: bv32)
    ensures Shift(r) == Xor(Half(r), Feedback(r))
  {}

  lemma PartsXor(a: bv32, b: bv32)
    ensures Half(Xor(a, b)) == Xor(Half(a), Half(b))
  {}

  lemma FeedbackXor(a: bv32, b: bv32)
    ensures Feedback(Xor(a, b)) == Xor(Feedback(a), Feedback(b))
  {
    XorShift(a, b);
    LowBit(a);
    LowBit(b);
  }

  lemma XorAssociative(a: bv32, b: bv32, c: bv32)
    ensures Xor(Xor(a, b), c) == Xor(a, Xor(b, c))
  {}

  lemma XorCommutative(a: bv32, b: bv32)
    ensures Xor(a, b) == Xor(b, a)
  {}

  lemma XorRegroup(a: bv32, b: bv32, c: bv32, d: bv32)
    ensures Xor(Xor(a, b), Xor(c, d)) == Xor(Xor(a, c), Xor(b, d))
  {
    hide *;
    XorAssociative(a, b, Xor(c, d));
    XorAssociative(b, c, d);
    XorCommutative(b, c);
    XorAssociative(c, b, d);
    XorAssociative(a, c, Xor(b, d));
  }

  lemma ShiftXor(a: bv32, b: bv32)
    ensures Shift(Xor(a, b)) == Xor(Shift(a), Shift(b))
  {
    hide *;
    ShiftParts(a);
    ShiftParts(b);
    ShiftParts(Xor(a, b));
    PartsXor(a, b);
    FeedbackXor(a, b);
    XorRegroup(Half(a), Feedback(a), Half(b), Feedback(b));
  }

  /** The register update is linear over exclusive or. */
  lemma Shift8Xor(a: bv32, b: bv32)
    ensures Shift8(Xor(a, b)) == Xor(Shift8(a), Shift8(b))
  {
    hide Shift, Xor;
    var x, y := a, b;
    ShiftXor(x, y);
    x, y := Shift(x), Shift(y);
    ShiftXor(x, y);
    x, y := Shift(x), Shift(y);
    ShiftXor(x, y);
    x, y := Shift(x), Shift(y);
    ShiftXor(x, y);
    x, y := Shift(x), Shift(y);
    ShiftXor(x, y);
    x, y := Shift(x), Shift(y);
    ShiftXor(x, y);
    x, y := Shift(x), Shift(y);
    ShiftXor(x, y);
    x, y := Shift(x), Shift(y);
    ShiftXor(x, y);
  }

  lemma ShiftEven(r: bv32)
    requires r & 1 == 0
    ensures Shift(r) == r >> 1
  {}

  lemma LowZeros(h: bv32)
    ensures h & 0x3 == 0 ==> h & 1 == 0 && (h >> 1) & 1 == 0 && h >> 1 >> 1 == h >> 2
    ensures h & 0xF == 0 ==> h & 0x3 == 0 && (h >> 2) & 0x3 == 0 && h >> 2 >> 2 == h >> 4
    ensures h & 0xFF == 0 ==> h & 0xF == 0 && (h >> 4) & 0xF == 0 && h >> 4 >> 4 == h >> 8
  {}

  lemma ShiftTwo(h: bv32)
    requires h & 0x3 == 0
    ensures Shift(Shift(h)) == h >> 2
  {
    hide Shift;
    LowZeros(h);
    ShiftEven(h);
    ShiftEven(h >> 1);
  }

  lemma ShiftFour(h: bv32)
    requires h & 0xF == 0
    ensures Shift(Shift(Shift(Shift(h)))) == h >> 4
  {
    hide Shift;
    LowZeros(h);
    ShiftTwo(h);
    ShiftTwo(h >> 2);
  }

  /** A register whose low byte is zero only moves down. */
  lemma Shift8High(h: bv32)
    requires h & 0xFF == 0
    ensures Shift8(h) == Down8(h)
  {
    hide Shift;
    LowZeros(h);
    ShiftFour(h);
    ShiftFour(h >> 4);
  }

  // ----- the table of the source, sixteen entries a row -----

  function Row(h: nat): (row: seq<bv32>)
    ensures |row| == 16
  {
    match h
    case 0 => [
      0x00000000, 0x77073096, 0xee0e612c, 0x990951ba, 0x076dc419, 0x706af48f, 0xe963a535, 0x9e6495a3,
      0x0edb8832, 0x79dcb8a4, 0xe0d5e91e, 0x97d2d988, 0x09b64c2b, 0x7eb17cbd, 0xe7b82d07, 0x90bf1d91]
    case 1 => [
      0x1db71064, 0x6ab020f2, 0xf3b97148, 0x84be41de, 0x1adad47d, 0x6ddde4eb, 0xf4d4b551, 0x83d385c7,
      0x136c9856, 0x646ba8c0, 0xfd62f97a, 0x8a65c9ec, 0x14015c4f, 0x63066cd9, 0xfa0f3d63, 0x8d080df5]
    case 2 => [
      0x3b6e20c8, 0x4c69105e, 0xd56041e4, 0xa2677172, 0x3c03e4d1, 0x4b04d447, 0xd20d85fd, 0xa50ab56b,
      0x35b5a8fa, 0x42b2986c, 0xdbbbc9d6, 0xacbcf940, 0x32d86ce3, 0x45df5c75, 0xdcd60dcf, 0xabd13d59]
    case 3 => [
      0x26d930ac, 0x51de003a, 0xc8d75180, 0xbfd06116, 0x21b4f4b5, 0x56b3c423, 0xcfba9599, 0xb8bda50f,
      0x2802b89e, 0x5f058808, 0xc60cd9b2, 0xb10be924, 0x2f6f7c87, 0x58684c11, 0xc1611dab, 0xb6662d3d]
    case 4 => [
      0x76dc4190, 0x01db7106, 0x98d220bc, 0xefd5102a, 0x71b18589, 0x06b6b51f, 0x9fbfe4a5, 0xe8b8d433,
      0x7807c9a2, 0x0f00f934, 0x9609a88e, 0xe10e9818, 0x7f6a0dbb, 0x086d3d2d, 0x91646c97, 0xe6635c01]
    case 5 => [
      0x6b6b51f4, 0x1c6c6162, 0x856530d8, 0xf262004e, 0x6c0695ed, 0x1b01a57b, 0x8208f4c1, 0xf50fc457,
      0x65b0d9c6, 0x12b7e950, 0x8bbeb8ea, 0xfcb9887c, 0x62dd1ddf, 0x15da2d49, 0x8cd37cf3, 0xfbd44c65]
    case 6 => [
      0x4db26158, 0x3ab551ce, 0xa3bc0074, 0xd4bb30e2, 0x4adfa541, 0x3dd895d7, 0xa4d1c46d, 0xd3d6f4fb,
      0x4369e96a, 0x346ed9fc, 0xad678846, 0xda60b8d0, 0x44042d73, 0x33031de5, 0xaa0a4c5f, 0xdd0d7cc9]
    case 7 => [
      0x5005713c, 0x270241aa, 0xbe0b1010, 0xc90c2086, 0x5768b525, 0x206f85b3, 0xb966d409, 0xce61e49f,
      0x5edef90e, 0x29d9c998, 0xb0d09822, 0xc7d7a8b4, 0x59b33d17, 0x2eb40d81, 0xb7bd5c3b, 0xc0ba6cad]
    case 8 => [
      0xedb88320, 0x9abfb3b6, 0x03b6e20c, 0x74b1d29a, 0xead54739, 0x9dd277af, 0x04db2615, 0x73dc1683,
      0xe3630b12, 0x94643b84, 0x0d6d6a3e, 0x7a6a5aa8, 0xe40ecf0b, 0x9309ff9d, 0x0a00ae27, 0x7d079eb1]
    case 9 => [
      0xf00f9344, 0x8708a3d2, 0x1e01f268, 0x6906c2fe, 0xf762575d, 0x806567cb, 0x196c3671, 0x6e6b06e7,
      0xfed41b76, 0x89d32be0, 0x10da7a5a, 0x67dd4acc, 0xf9b9df6f, 0x8ebeeff9, 0x17b7be43, 0x60b08ed5]
    case 10 => [
      0xd6d6a3e8, 0xa1d1937e, 0x38d8c2c4, 0x4fdff252, 0xd1bb67f1, 0xa6bc5767, 0x3fb506dd, 0x48b2364b,
      0xd80d2bda, 0xaf0a1b4c, 0x36034af6, 0x41047a60, 0xdf60efc3, 0xa867df55, 0x316e8eef, 0x4669be79]
    case 11 => [
      0xcb61b38c, 0xbc66831a, 0x256fd2a0, 0x5268e236, 0xcc0c7795, 0xbb0b4703, 0x220216b9, 0x5505262f,
      0xc5ba3bbe, 0xb2bd0b28, 0x2bb45a92, 0x5cb36a04, 0xc2d7ffa7, 0xb5d0cf31, 0x2cd99e8b, 0x5bdeae1d]
    case 12 => [
      0x9b64c2b0, 0xec63f226, 0x756aa39c, 0x026d930a, 0x9c0906a9, 0xeb0e363f, 0x72076785, 0x05005713,
      0x95bf4a82, 0xe2b87a14, 0x7bb12bae, 0x0cb61b38, 0x92d28e9b, 0xe5d5be0d, 0x7cdcefb7, 0x0bdbdf21]
    case 13 => [
      0x86d3d2d4, 0xf1d4e242, 0x68ddb3f8, 0x1fda836e, 0x81be16cd, 0xf6b9265b, 0x6fb077e1, 0x18b74777,
      0x88085ae6, 0xff0f6a70, 0x66063bca, 0x11010b5c, 0x8f659eff, 0xf862ae69, 0x616bffd3, 0x166ccf45]
    case 14 => [
      0xa00ae278, 0xd70dd2ee, 0x4e048354, 0x3903b3c2, 0xa7672661, 0xd06016f7, 0x4969474d, 0x3e6e77db,
      0xaed16a4a, 0xd9d65adc, 0x40df0b66, 0x37d83bf0, 0xa9bcae53, 0xdebb9ec5, 0x47b2cf7f, 0x30b5ffe9]
    case _ => [
      0xbdbdf21c, 0xcabac28a, 0x53b39330, 0x24b4a3a6, 0xbad03605, 0xcdd70693, 0x54de5729, 0x23d967bf,
      0xb3667a2e, 0xc4614ab8, 0x5d681b02, 0x2a6f2b94, 0xb40bbe37, 0xc30c8ea1, 0x5a05df1b, 0x2d02ef8d]
  }

  lemma Row0(l: bv32)
    requires l < 16
    ensures Row(0)[l as int] == Shift8(0x00 ^ l)
  {}

  lemma Row1(l: bv32)
    requires l < 16
    ensures Row(1)[l as int] == Shift8(0x10 ^ l)
  {}

  lemma Row2(l: bv32)
    requires l < 16
    ensures Row(2)[l as int] == Shift8(0x20 ^ l)
  {}

  lemma Row3(l: bv32)
    requires l < 16
    ensures Row(3)[l as int] == Shift8(0x30 ^ l)
  {}

  lemma Row4(l: bv32)
    requires l < 16
    ensures Row(4)[l as int] == Shift8(0x40 ^ l)
  {}

  lemma Row5(l: bv32)
    requires l < 16
    ensures Row(5)[l as int] == Shift8(0x50 ^ l)
  {}

  lemma Row6(l: bv32)
    requires l < 16
    ensures Row(6)[l as int] == Shift8(0x60 ^ l)
  {}

  lemma Row7(l: bv32)
    requires l < 16
    ensures Row(7)[l as int] == Shift8(0x70 ^ l)
  {}

  lemma Row8(l: bv32)
    requires l < 16
    ensures Row(8)[l as int] == Shift8(0x80 ^ l)
  {}

  lemma Row9(l: bv32)
    requires l < 16
    ensures Row(9)[l as int] == Shift8(0x90 ^ l)
  {}

  lemma Row10(l: bv32)
    requires l < 16
    ensures Row(10)[l as int] == Shift8(0xa0 ^ l)
  {}

  lemma Row11(l: bv32)
    requires l < 16
    ensures Row(11)[l as int] == Shift8(0xb0 ^ l)
  {}

  lemma Row12(l: bv32)
    requires l < 16
    ensures Row(12)[l as int] == Shift8(0xc0 ^ l)
  {}

  lemma Row13(l: bv32)
    requires l < 16
    ensures Row(13)[l as int] == Shift8(0xd0 ^ l)
  {}

  lemma Row14(l: bv32)
    requires l < 16
    ensures Row(14)[l as int] == Shift8(0xe0 ^ l)
  {}

  lemma Row15(l: bv32)
    requires l < 16
    ensures Row(15)[l as int] == Shift8(0xf0 ^ l)
  {}


  /** Entry x of the table. */
  function Entry(x: bv32): bv32
    requires x < 0x100
  {
    Row((x >> 4) as int)[(x & 15) as int]
  }

  lemma RowIsShift8(h: bv32, l: bv32)
    requires h < 16 && l < 16
    ensures Row(h as int)[l as int] == Shift8((h << 4) ^ l)
  {
    hide Row, Shift8;
    match h
    case 0 => Row0(l);
    case 1 => Row1(l);
    case 2 => Row2(l);
    case 3 => Row3(l);
    case 4 => Row4(l);
    case 5 => Row5(l);
    case 6 => Row6(l);
    case 7 => Row7(l);
    case 8 => Row8(l);
    case 9 => Row9(l);
    case 10 => Row10(l);
    case 11 => Row11(l);
    case 12 => Row12(l);
    case 13 => Row13(l);
    case 14 => Row14(l);
    case _ => Row15(l);
  }

  lemma EntryIndex(x: bv32)
    requires x < 0x100
    ensures x >> 4 < 16 && x & 15 < 16 && ((x >> 4) << 4) ^ (x & 15) == x
  {}

  /** Every table entry is eight shift/xor steps of its index. */
  lemma EntryIsShift8(x: bv32)
    requires x < 0x100
    ensures Entry(x) == Shift8(x)
  {
    EntryIndex(x);
    hide Row, Shift8;
    RowIsShift8(x >> 4, x & 15);
  }

  // ----- the register update of the source -----

  function Update(crc: bv32, b: byte): bv32 {
    Xor(Entry(Low8(Xor(crc, b as bv32))), Down8(crc))
  }

  lemma SplitRegister(x: bv32)
    ensures Xor(Low8(x), High24(x)) == x && High24(x) & 0xFF == 0
  {}

  lemma Shift8Split(x: bv32)
    ensures Xor(Shift8(Low8(x)), Down8(High24(x))) == Shift8(x)
  {
    SplitRegister(x);
    hide Shift8, Xor, Low8, High24, Down8;
    Shift8Xor(Low8(x), High24(x));
    Shift8High(High24(x));
  }

  lemma HighPart(crc: bv32, d: bv32)
    requires d < 0x100
    ensures Down8(High24(Xor(crc, d))) == Down8(crc)
  {}

  lemma ByteRange(b: byte)
    ensures (b as bv32) < 0x100
  {}

  /** The table-driven update is eight steps of the shift register, for every register and byte. */
  lemma UpdateIsShift8(crc: bv32, b: byte)
    ensures Update(crc, b) == Shift8(Xor(crc, b as bv32))
  {
    ByteRange(b);
    hide Shift8, Entry, Xor, Low8, High24, Down8;
    var d := b as bv32;
    HighPart(crc, d);
    Shift8Split(Xor(crc, d));
    EntryIsShift8(Low8(Xor(crc, d)));
  }

  function Run(crc: bv32, data: seq<byte>): bv32
    decreases |data|
  {
    if data == [] then crc else Run(Update(crc, data[0]), data[1..])
  }

  function Complement(r: bv32): bv32 { r ^ 0xFFFF_FFFF }

  lemma ComplementTwice(r: bv32)
    ensures Complement(Complement(r)) == r
  {}

  /** The checksum of a byte string, as an unsigned word. */
  function Checksum(data: seq<byte>): u32 {
    Crc(0, data) as int
  }

  /** sparse_crc32 as a function of the running value and the bytes. */
  function Crc(crcIn: bv32, data: seq<byte>): bv32 {
    Complement(Run(Complement(crcIn), data))
  }

  method SparseCrc32(crcIn: bv32, buf: seq<byte>) returns (crcOut: bv32)
    ensures crcOut == Crc(crcIn, buf)
  {
    var crc := Complement(crcIn);
    var p := 0;
    hide Update, Complement;
    while p < |buf|
      invariant 0 <= p <= |buf|
      invariant Run(crc, buf[p..]) == Run(Complement(crcIn), buf)
    {
      assert buf[p..][1..] == buf[p + 1..];
      crc := Update(crc, buf[p]);
      p := p + 1;
    }
    crcOut := Complement(crc);
  }

  lemma {:induction false} RunAppend(crc: bv32, a: seq<byte>, b: seq<byte>)
    ensures Run(crc, a + b) == Run(Run(crc, a), b)
    decreases |a|
  {
    hide Update;
    if a == [] {
      assert a + b == b;
    } else {
      assert (a + b)[1..] == a[1..] + b;
      RunAppend(Update(crc, a[0]), a[1..], b);
    }
  }

  /** Cutting the data into pieces does not change the checksum. */
  lemma CrcAppend(c: bv32, a: seq<byte>, b: seq<byte>)
    ensures Crc(Crc(c, a), b) == Crc(c, a + b)
  {
    hide Run, Complement;
    RunAppend(Complement(c), a, b);
    ComplementTwice(Run(Complement(c), a));
  }

  lemma CrcEmpty(c: bv32)
    ensures Crc(c, []) == c
  {
    ComplementTwice(c);
  }

  // ----- the checksum is what a bit-serial shift register computes -----

  function Bit0(d: bv32): bv32 { d & 1 }

  /** The register after the n low bits of d have entered it, least significant first. */
  function FeedBits(r: bv32, d: bv32, n: nat): bv32
    decreases n
  {
    if n == 0 then r else FeedBits(Shift(Xor(r, Bit0(d))), Half(d), n - 1)
  }

  function HalfN(d: bv32, n: nat): bv32
    decreases n
  {
    if n == 0 then d else HalfN(Half(d), n - 1)
  }

  function ShiftN(r: bv32, n: nat): bv32
    decreases n
  {
    if n == 0 then r else ShiftN(Shift(r), n - 1)
  }

  function EvenPart(d: bv32): bv32 { d & 0xFFFF_FFFE }

  lemma SplitBit0(r: bv32, d: bv32)
    ensures Xor(r, d) == Xor(Xor(r, Bit0(d)), EvenPart(d))
  {}

  lemma ShiftEvenPart(d: bv32)
    ensures Shift(EvenPart(d)) == Half(d)
  {
    hide Shift;
    ShiftEven(EvenPart(d));
  }

  lemma ShiftFirstBit(r: bv32, d: bv32)
    ensures Shift(Xor(r, d)) == Xor(Shift(Xor(r, Bit0(d))), Half(d))
  {
    SplitBit0(r, d);
    ShiftEvenPart(d);
    hide Shift, Xor, Bit0, Half, EvenPart;
    ShiftXor(Xor(r, Bit0(d)), EvenPart(d));
  }

  lemma {:induction false} FeedBitsIsShiftN(r: bv32, d: bv32, n: nat)
    ensures ShiftN(Xor(r, d), n) == Xor(FeedBits(r, d, n), HalfN(d, n))
    decreases n
  {
    hide Shift, Xor, Bit0, Half;
    if n != 0 {
      ShiftFirstBit(r, d);
      FeedBitsIsShiftN(Shift(Xor(r, Bit0(d))), Half(d), n - 1);
    }
  }

  lemma EightSteps(r: bv32, d: bv32)
    ensures ShiftN(r, 8) == Shift8(r)
    ensures HalfN(d, 8) == Half(Half(Half(Half(Half(Half(Half(Half(d))))))))
  {
    hide Shift, Half;
    assert ShiftN(r, 8) == ShiftN(Shift(Shift(Shift(Shift(r)))), 4);
    assert HalfN(d, 8) == HalfN(Half(Half(Half(Half(d)))), 4);
  }

  lemma ByteIsSpent(d: bv32, f: bv32)
    requires d < 0x100
    ensures Xor(f, Half(Half(Half(Half(Half(Half(Half(Half(d))))))))) == f
  {}

  function BitSerial(crc: bv32, data: seq<byte>): bv32
    decreases |data|
  {
    if data == [] then crc else BitSerial(FeedBits(crc, data[0] as bv32, 8), data[1..])
  }

  /** The table-driven loop leaves the register that feeding the message bit by bit leaves. */
  lemma {:induction false} RunIsBitSerial(crc: bv32, data: seq<byte>)
    ensures Run(crc, data) == BitSerial(crc, data)
    decreases |data|
  {
    hide Update, Shift8, FeedBits, ShiftN, HalfN, Xor, Half;
    if data != [] {
      var d := data[0] as bv32;
      ByteRange(data[0]);
      UpdateIsShift8(crc, data[0]);
      FeedBitsIsShiftN(crc, d, 8);
      EightSteps(Xor(crc, d), d);
      ByteIsSpent(d, FeedBits(crc, d, 8));
      RunIsBitSerial(Update(crc, data[0]), data[1..]);
    }
  }

  lemma ComplementIs(r: bv32)
    ensures Complement(r) == r ^ 0xFFFF_FFFF
  {}

  lemma CrcParts(c: bv32, data: seq<byte>)
    ensures Complement(Crc(c, data)) == Run(Complement(c), data)
  {
    ComplementTwice(Run(Complement(c), data));
    hide Run, Complement;
  }

  /** The checksum itself: bit-by-bit division between two inversions. */
  lemma CrcIsBitSerial(c: bv32, data: seq<byte>)
    ensures Crc(c, data) ^ 0xFFFF_FFFF == BitSerial(c ^ 0xFFFF_FFFF, data)
  {
    hide *;
    ComplementIs(c);
    ComplementIs(Crc(c, data));
    CrcParts(c, data);
    RunIsBitSerial(Complement(c), data);
  }

  lemma CrcFromZero(data: seq<byte>)
    ensures Crc(0, data) ^ 0xFFFF_FFFF == BitSerial(0xFFFF_FFFF, data)
  {
    hide *;
    CrcIsBitSerial(0, data);
  }
}
