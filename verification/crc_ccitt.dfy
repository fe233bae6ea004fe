/** The CRC-CCITT of the UPDATA container: table, checksum loop and the residue test of a stored block. */
module CrcCcitt {
  import opened Words

  // Register operations are named so that proofs can hide them.

  function Xor(a: bv16, b: bv16): bv16 { a ^ b }

  function Low8(r: bv16): (x: bv16)
    ensures x < 0x100
  {
    r & 0xFF
  }

  function High8(r: bv16): (x: bv16)
    ensures x < 0x100
  {
    r >> 8
  }

  /** One step of the reflected register with polynomial 0x8408. */
  function Shift(r: bv16): bv16 {
    if r & 1 == 1 then (r >> 1) ^ 0x8408 else r >> 1
  }

  function ShiftN(r: bv16, n: nat): bv16
    decreases n
  {
    if n == 0 then r else ShiftN(Shift(r), n - 1)
  }

  /** The table entry of a byte. */
  function Entry(x: bv16): bv16 { ShiftN(x, 8) }

  /** The module-level table, built as the source builds it. */
  method BuildTable() returns (table: seq<bv16>)
    ensures |table| == 256
    ensures forall i :: 0 <= i < 256 ==> table[i] == Entry(i as bv16)
  {
    hide Shift;
    table := [];
    for i := 0 to 256
      invariant |table| == i
      invariant forall k :: 0 <= k < i ==> table[k] == Entry(k as bv16)
    {
      var crc := i as bv16;
      for x := 0 to 8
        invariant ShiftN(crc, 8 - x) == Entry(i as bv16)
      {
        crc := Shift(crc);
      }
      table := table + [crc];
    }
  }

  function Update(crc: bv16, item: byte): bv16 {
    Xor(High8(crc), Entry(Xor(Low8(crc), item as bv16)))
  }

  function Crc(data: seq<byte>, crc: bv16): bv16
    decreases |data|
  {
    if data == [] then crc else Crc(data[1..], Update(crc, data[0]))
  }

  lemma IndexRange(crc: bv16, item: byte)
    ensures Xor(Low8(crc), item as bv16) < 0x100
    ensures (item as bv16) < 0x100
  {}

  lemma IndexBack(x: bv16)
    ensures (x as int) as bv16 == x
  {}

  method CrcCcitt(data: seq<byte>, crcIn: bv16) returns (crc: bv16)
    ensures crc == Crc(data, crcIn)
  {
    var table := BuildTable();
    crc := crcIn;
    hide Entry, Xor, Low8, High8;
    for i := 0 to |data|
      invariant Crc(data[i..], crc) == Crc(data, crcIn)
    {
      assert data[i..][1..] == data[i + 1..];
      IndexRange(crc, data[i]);
      ghost var x := Xor(Low8(crc), data[i] as bv16);
      IndexBack(x);
      crc := Xor(High8(crc), table[Xor(Low8(crc), data[i] as bv16) as int]);
    }
  }

  lemma {:induction false} CrcAppend(a: seq<byte>, b: seq<byte>, crc: bv16)
    ensures Crc(a + b, crc) == Crc(b, Crc(a, crc))
    decreases |a|
  {
    hide Update;
    if a == [] {
      assert a + b == b;
    } else {
      assert (a + b)[1..] == a[1..] + b;
      CrcAppend(a[1..], b, Update(crc, a[0]));
    }
  }

  // ----- the residue -----

  lemma UnrollEntry(x: bv16)
    ensures Entry(x) == Shift(Shift(Shift(Shift(Shift(Shift(Shift(Shift(x))))))))
  {
    hide Shift;
    assert ShiftN(x, 8) == ShiftN(Shift(Shift(Shift(Shift(x)))), 4);
  }

  lemma EntryInjective(x: bv16, y: bv16)
    requires x < 0x100 && y < 0x100 && High8(Entry(x)) == High8(Entry(y))
    ensures x == y
  {
    UnrollEntry(x);
    UnrollEntry(y);
    hide Entry;
  }

  function Complement(r: bv16): bv16 { r ^ 0xFFFF }

  lemma ResidueEntries()
    ensures Entry(0xFF) == 0x0F78 && Entry(0x87) == 0xF0B7
  {
    UnrollEntry(0xFF);
    UnrollEntry(0x87);
  }

  lemma RegisterParts(c: bv16, e: bv16)
    ensures High8(Xor(High8(c), e)) == High8(e)
    ensures Low8(Xor(High8(c), e)) == Xor(High8(c), Low8(e))
  {}

  lemma FirstIndex(c: bv16, x: bv16)
    requires x < 0x100
    ensures Xor(Low8(c), x) < 0x100
    ensures Xor(Low8(c), x) == 0xFF <==> x == Low8(Complement(c))
  {}

  lemma SecondIndex(c: bv16, x: bv16)
    requires x < 0x100
    ensures Xor(Xor(High8(c), 0x78), x) < 0x100
    ensures Xor(Xor(High8(c), 0x78), x) == 0x87 <==> x == High8(Complement(c))
  {}

  lemma LastUpdate(h: bv16, e: bv16)
    requires h < 0x100
    ensures High8(Xor(h, e)) == High8(e)
    ensures Low8(Xor(h, e)) == Xor(h, Low8(e))
    ensures Low8(Xor(h, e)) == 0xB8 && Low8(e) == 0xB7 ==> h == 0x0F
    ensures Xor(0x0F, 0xF0B7) == 0xF0B8 && High8(0xF0B7) == 0xF0 == High8(0xF0B8) && Low8(0xF0B7) == 0xB7
    ensures Low8(0xF0B8) == 0xB8 && High8(0x0F78) == 0x0F && Low8(0x0F78) == 0x78
  {}

  /** Two more bytes take the register c to the residue exactly when they are the complement of c, low byte first. */
  lemma TwoUpdates(c: bv16, x: bv16, y: bv16)
    requires x < 0x100 && y < 0x100
    ensures var s := Xor(High8(c), Entry(Xor(Low8(c), x)));
            Xor(High8(s), Entry(Xor(Low8(s), y))) == 0xF0B8
            <==> x == Low8(Complement(c)) && y == High8(Complement(c))
  {
    hide Entry, Xor, Low8, High8, Complement;
    ResidueEntries();
    var i := Xor(Low8(c), x);
    var s := Xor(High8(c), Entry(i));
    var j := Xor(Low8(s), y);
    RegisterParts(c, Entry(i));
    RegisterParts(s, Entry(j));
    FirstIndex(c, x);
    FirstIndex(s, y);
    SecondIndex(c, y);
    LastUpdate(High8(s), Entry(j));
    if Xor(High8(s), Entry(j)) == 0xF0B8 {
      EntryInjective(j, 0x87);
      EntryInjective(i, 0xFF);
    }
  }

  lemma ByteRange(b: byte)
    ensures (b as bv16) < 0x100
  {}

  lemma CrcTwo(c: bv16, lo: byte, hi: byte)
    ensures Crc([lo, hi], c) == Update(Update(c, lo), hi)
  {
    hide Update;
    assert [lo, hi][1..] == [hi] && [hi][1..] == [];
    assert Crc([hi], Update(c, lo)) == Crc([], Update(Update(c, lo), hi));
  }

  /** The test of parse_updata: a block followed by two bytes leaves 0xf0b8 exactly when they are, low byte
      first, the complement of the checksum of the block. */
  lemma Residue(data: seq<byte>, lo: byte, hi: byte)
    ensures var fcs := Complement(Crc(data, 0xFFFF));
            Crc(data + [lo, hi], 0xFFFF) == 0xF0B8 <==> lo as bv16 == Low8(fcs) && hi as bv16 == High8(fcs)
  {
    var c := Crc(data, 0xFFFF);
    ByteRange(lo);
    ByteRange(hi);
    hide Entry, Xor, Low8, High8, Complement, Crc;
    CrcAppend(data, [lo, hi], 0xFFFF);
    CrcTwo(c, lo, hi);
    TwoUpdates(c, lo as bv16, hi as bv16);
  }
}
