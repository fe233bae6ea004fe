/** Bitmaps of bytes: bit k is bit k % 8 of byte k / 8. */
module Bitmaps {

  // ----- one byte -----

  function Mask(k: nat): bv8
    requires k < 8
  {
    1 << k
  }

  predicate Test(b: bv8, m: bv8) { b & m != 0 }

  function With(b: bv8, m: bv8): bv8 { b | m }

  function Without(b: bv8, m: bv8): bv8 { b & !m }

  predicate OneBit(m: bv8) { m in {1, 2, 4, 8, 16, 32, 64, 128} }

  lemma TestWith(b: bv8, m: bv8, n: bv8)
    requires OneBit(m) && OneBit(n)
    ensures Test(With(b, m), n) <==> m == n || Test(b, n)
  {}

  lemma TestWithout(b: bv8, m: bv8, n: bv8)
    requires OneBit(m) && OneBit(n)
    ensures Test(Without(b, m), n) <==> m != n && Test(b, n)
  {}

  lemma TestWhole(n: bv8)
    requires OneBit(n)
    ensures Test(0xFF, n) && !Test(0, n)
  {}

  lemma SameBits(b: bv8, c: bv8)
    requires Test(b, 1) == Test(c, 1) && Test(b, 2) == Test(c, 2) && Test(b, 4) == Test(c, 4) && Test(b, 8) == Test(c, 8)
    requires Test(b, 16) == Test(c, 16) && Test(b, 32) == Test(c, 32)
    requires Test(b, 64) == Test(c, 64) && Test(b, 128) == Test(c, 128)
    ensures b == c
  {}

  lemma Masks(j: nat, k: nat)
    requires j < 8 && k < 8
    ensures OneBit(Mask(j)) && OneBit(Mask(k)) && (Mask(j) == Mask(k) <==> j == k)
  {
    MaskValues();
    hide Mask;
  }

  lemma MaskValues()
    ensures Mask(0) == 1 && Mask(1) == 2 && Mask(2) == 4 && Mask(3) == 8
    ensures Mask(4) == 16 && Mask(5) == 32 && Mask(6) == 64 && Mask(7) == 128
  {}

  // ----- many bytes -----

  predicate Within(bits: seq<bv8>, k: nat) { k < 8 * |bits| }

  predicate IsSet(bits: seq<bv8>, k: nat)
    requires Within(bits, k)
  {
    Test(bits[k / 8], Mask(k % 8))
  }

  function SetBit(bits: seq<bv8>, k: nat): (r: seq<bv8>)
    requires Within(bits, k)
    ensures |r| == |bits|
  {
    bits[k / 8 := With(bits[k / 8], Mask(k % 8))]
  }

  function ClearBit(bits: seq<bv8>, k: nat): (r: seq<bv8>)
    requires Within(bits, k)
    ensures |r| == |bits|
  {
    bits[k / 8 := Without(bits[k / 8], Mask(k % 8))]
  }

  lemma SetBitIs(bits: seq<bv8>, k: nat, j: nat)
    requires Within(bits, k) && Within(bits, j)
    ensures IsSet(SetBit(bits, k), j) <==> j == k || IsSet(bits, j)
  {
    Masks(j % 8, k % 8);
    if j / 8 == k / 8 {
      TestWith(bits[k / 8], Mask(k % 8), Mask(j % 8));
    }
    hide Mask, Test, With, OneBit;
  }

  lemma ClearBitIs(bits: seq<bv8>, k: nat, j: nat)
    requires Within(bits, k) && Within(bits, j)
    ensures IsSet(ClearBit(bits, k), j) <==> j != k && IsSet(bits, j)
  {
    Masks(j % 8, k % 8);
    if j / 8 == k / 8 {
      TestWithout(bits[k / 8], Mask(k % 8), Mask(j % 8));
    }
    hide Mask, Test, Without, OneBit;
  }

  // ----- bitmaps are their bits -----

  ghost predicate SameBitmap(x: seq<bv8>, y: seq<bv8>) {
    |x| == |y| && forall k :: 0 <= k < 8 * |x| ==> IsSet(x, k) == IsSet(y, k)
  }

  lemma BitAgrees(x: seq<bv8>, y: seq<bv8>, i: nat, j: nat)
    requires SameBitmap(x, y) && i < |x| && j < 8
    ensures Test(x[i], Mask(j)) == Test(y[i], Mask(j))
  {
    var k := 8 * i + j;
    assert IsSet(x, k) == IsSet(y, k);
    hide Test, Mask;
  }

  lemma BytesAgree(x: seq<bv8>, y: seq<bv8>, i: nat)
    requires SameBitmap(x, y) && i < |x|
    ensures x[i] == y[i]
  {
    assert |x| == |y|;
    hide SameBitmap, Mask, Test;
    BitAgrees(x, y, i, 0);
    BitAgrees(x, y, i, 1);
    BitAgrees(x, y, i, 2);
    BitAgrees(x, y, i, 3);
    BitAgrees(x, y, i, 4);
    BitAgrees(x, y, i, 5);
    BitAgrees(x, y, i, 6);
    BitAgrees(x, y, i, 7);
    MaskValues();
    SameBits(x[i], y[i]);
  }

  lemma SameBitmapIsEqual(x: seq<bv8>, y: seq<bv8>)
    requires SameBitmap(x, y)
    ensures x == y
  {
    forall i | 0 <= i < |x|
      ensures x[i] == y[i]
    {
      BytesAgree(x, y, i);
    }
    hide IsSet;
  }

  // ----- reserving a range, bit by bit -----

  datatype Reservation = Reserved(bits: seq<bv8>) | AlreadyReserved

  predicate Room(bits: seq<bv8>, start: nat, num: nat) { start + num <= 8 * |bits| }

  /** Marks num bits from start one at a time; fails on a bit that is already set. */
  function SlowReserve(bits: seq<bv8>, start: nat, num: nat): Reservation
    requires Room(bits, start, num)
    decreases num
  {
    if num == 0 then Reserved(bits)
    else if IsSet(bits, start) then AlreadyReserved
    else SlowReserve(SetBit(bits, start), start + 1, num - 1)
  }

  ghost predicate Clear(bits: seq<bv8>, start: nat, num: nat)
    requires Room(bits, start, num)
  {
    forall k: nat :: start <= k < start + num ==> !IsSet(bits, k)
  }

  /** y is x with exactly the bits of the range added. */
  ghost predicate RangeAdded(x: seq<bv8>, y: seq<bv8>, start: nat, num: nat) {
    |x| == |y| && forall k: nat :: k < 8 * |x| ==> (IsSet(y, k) <==> IsSet(x, k) || start <= k < start + num)
  }

  lemma ClearStep(bits: seq<bv8>, start: nat, num: nat)
    requires Room(bits, start, num) && num > 0
    ensures Clear(bits, start, num) <==> !IsSet(bits, start) && Clear(SetBit(bits, start), start + 1, num - 1)
  {
    var y := SetBit(bits, start);
    forall k: nat | start < k < start + num
      ensures IsSet(y, k) == IsSet(bits, k)
    {
      SetBitIs(bits, start, k);
    }
    hide IsSet, SetBit;
  }

  lemma AddedStep(bits: seq<bv8>, y: seq<bv8>, start: nat, num: nat)
    requires Room(bits, start, num) && num > 0 && RangeAdded(SetBit(bits, start), y, start + 1, num - 1)
    ensures RangeAdded(bits, y, start, num)
  {
    var x := SetBit(bits, start);
    forall k: nat | k < 8 * |bits|
      ensures IsSet(x, k) <==> k == start || IsSet(bits, k)
    {
      SetBitIs(bits, start, k);
    }
    hide IsSet, SetBit;
  }

  /** The bit-at-a-time reservation succeeds exactly on a clear range, and then sets that range and nothing else. */
  lemma {:induction false} SlowReserveIs(bits: seq<bv8>, start: nat, num: nat)
    requires Room(bits, start, num)
    ensures SlowReserve(bits, start, num).Reserved? <==> Clear(bits, start, num)
    ensures Clear(bits, start, num) ==> RangeAdded(bits, SlowReserve(bits, start, num).bits, start, num)
    decreases num
  {
    if num > 0 {
      ClearStep(bits, start, num);
      if !IsSet(bits, start) {
        SlowReserveIs(SetBit(bits, start), start + 1, num - 1);
        if Clear(bits, start, num) {
          AddedStep(bits, SlowReserve(SetBit(bits, start), start + 1, num - 1).bits, start, num);
        }
      }
      hide Clear, RangeAdded, IsSet, SetBit;
    }
  }

  lemma {:induction false} SlowReserveSplit(bits: seq<bv8>, start: nat, a: nat, n: nat)
    requires Room(bits, start, a + n)
    ensures var first := SlowReserve(bits, start, a);
            && (first.Reserved? ==> |first.bits| == |bits|)
            && SlowReserve(bits, start, a + n)
            == if first.Reserved? then SlowReserve(first.bits, start + a, n) else AlreadyReserved
    decreases a
  {
    if a > 0 && !IsSet(bits, start) {
      SlowReserveSplit(SetBit(bits, start), start + 1, a - 1, n);
      hide IsSet, SetBit;
    }
  }

  /** Eight bits at a byte boundary are that byte. */
  lemma ByteBits(bits: seq<bv8>, i: nat, k: nat)
    requires i < |bits| && k < 8 * |bits|
    ensures Room(bits, 8 * i, 8)
    ensures k / 8 != i ==> IsSet(bits[i := 0xFF], k) == IsSet(bits, k)
    ensures k / 8 == i ==> IsSet(bits[i := 0xFF], k)
    ensures k / 8 == i <==> 8 * i <= k < 8 * i + 8
    ensures bits[i] == 0 && k / 8 == i ==> !IsSet(bits, k)
  {
    Masks(k % 8, k % 8);
    TestWhole(Mask(k % 8));
    hide Mask, Test, OneBit;
  }

  lemma ClearByte(bits: seq<bv8>, i: nat)
    requires i < |bits|
    ensures Clear(bits, 8 * i, 8) <==> bits[i] == 0
  {
    forall k: nat | k < 8 * |bits|
      ensures bits[i] == 0 && 8 * i <= k < 8 * i + 8 ==> !IsSet(bits, k)
    {
      ByteBits(bits, i, k);
    }
    if Clear(bits, 8 * i, 8) {
      ByteIsZero(bits, i);
    }
    hide IsSet;
  }

  lemma ByteIsZero(bits: seq<bv8>, i: nat)
    requires i < |bits| && Clear(bits, 8 * i, 8)
    ensures bits[i] == 0
  {
    var zero := bits[i := 0];
    forall k | 0 <= k < 8 * |bits|
      ensures IsSet(bits, k) == IsSet(zero, k)
    {
      ByteBits(zero, i, k);
    }
    hide IsSet;
    SameBitmapIsEqual(bits, zero);
  }

  lemma WholeByte(bits: seq<bv8>, y: seq<bv8>, i: nat)
    requires i < |bits| && bits[i] == 0 && RangeAdded(bits, y, 8 * i, 8)
    ensures y == bits[i := 0xFF]
  {
    var z := bits[i := 0xFF];
    forall k | 0 <= k < 8 * |bits|
      ensures IsSet(y, k) == IsSet(z, k)
    {
      ByteBits(bits, i, k);
    }
    hide IsSet;
    SameBitmapIsEqual(y, z);
  }

  /** Eight steps of the bit-at-a-time reservation at a byte boundary are one assignment of the byte. */
  lemma EightAtOnce(bits: seq<bv8>, i: nat, n: nat)
    requires i < |bits| && Room(bits, 8 * i, 8 + n)
    ensures SlowReserve(bits, 8 * i, 8 + n)
         == if bits[i] == 0 then SlowReserve(bits[i := 0xFF], 8 * i + 8, n) else AlreadyReserved
  {
    hide *;
    ByteBits(bits, i, 8 * i);
    SlowReserveSplit(bits, 8 * i, 8, n);
    SlowReserveIs(bits, 8 * i, 8);
    ClearByte(bits, i);
    if bits[i] == 0 {
      WholeByte(bits, SlowReserve(bits, 8 * i, 8).bits, i);
    }
  }

  // ----- giving bits back -----

  /** y is x with exactly the bits of the range taken out. */
  ghost predicate RangeRemoved(x: seq<bv8>, y: seq<bv8>, start: nat, num: nat) {
    |x| == |y| && forall k: nat :: k < 8 * |x| ==> (IsSet(y, k) <==> IsSet(x, k) && !(start <= k < start + num))
  }

  lemma NoneRemoved(x: seq<bv8>, start: nat)
    ensures RangeRemoved(x, x, start, 0)
  {
    hide IsSet;
  }

  lemma OneRemoved(x: seq<bv8>, y: seq<bv8>, start: nat, num: nat)
    requires RangeRemoved(x, y, start, num) && 0 < start <= 8 * |x|
    ensures RangeRemoved(x, ClearBit(y, start - 1), start - 1, num + 1)
  {
    var z := ClearBit(y, start - 1);
    forall k: nat | k < 8 * |x|
      ensures IsSet(z, k) <==> IsSet(y, k) && k != start - 1
    {
      ClearBitIs(y, start - 1, k);
    }
    hide IsSet, ClearBit;
  }

  // ----- bitmaps with one free run -----

  /** Of the first n bits exactly those of [start, start + free) are clear. */
  ghost predicate FreeRun(bits: seq<bv8>, n: nat, start: nat, free: nat) {
    n <= 8 * |bits| && start + free <= n
    && forall k: nat :: k < n ==> (IsSet(bits, k) <==> !(start <= k < start + free))
  }

  lemma ReserveFront(bits: seq<bv8>, n: nat, start: nat, free: nat, num: nat)
    requires FreeRun(bits, n, start, free) && num <= free
    ensures Room(bits, start, num)
    ensures var r := SlowReserve(bits, start, num); r.Reserved? && FreeRun(r.bits, n, start + num, free - num)
  {
    hide IsSet, SlowReserve;
    SlowReserveIs(bits, start, num);
  }

  lemma ReserveBack(bits: seq<bv8>, n: nat, start: nat, free: nat, num: nat)
    requires FreeRun(bits, n, start, free) && num <= free && start + free == n
    ensures Room(bits, n - num, num)
    ensures var r := SlowReserve(bits, n - num, num); r.Reserved? && FreeRun(r.bits, n, start, free - num)
  {
    hide IsSet, SlowReserve;
    SlowReserveIs(bits, n - num, num);
  }

  lemma FreeFront(x: seq<bv8>, y: seq<bv8>, n: nat, start: nat, free: nat, num: nat)
    requires FreeRun(x, n, start, free) && num <= start && RangeRemoved(x, y, start - num, num)
    ensures FreeRun(y, n, start - num, free + num)
  {
    hide IsSet;
  }

  lemma FreshRun(bits: seq<bv8>, n: nat)
    requires n <= 8 * |bits| && forall i :: 0 <= i < |bits| ==> bits[i] == 0
    ensures FreeRun(bits, n, 0, n)
  {
    forall k: nat | k < n
      ensures !IsSet(bits, k)
    {
      ByteBits(bits, k / 8, k);
    }
    hide IsSet;
  }

  // ----- counting -----

  /** The number of clear bits among the first n. */
  function CountClear(bits: seq<bv8>, n: nat): nat
    requires n <= 8 * |bits|
  {
    if n == 0 then 0 else CountClear(bits, n - 1) + (if IsSet(bits, n - 1) then 0 else 1)
  }

  lemma {:induction false} RunCount(bits: seq<bv8>, n: nat, start: nat, free: nat, m: nat)
    requires FreeRun(bits, n, start, free) && m <= n
    ensures CountClear(bits, m) == if m <= start then 0 else if m <= start + free then m - start else free
  {
    if m > 0 {
      RunCount(bits, n, start, free, m - 1);
    }
    hide IsSet;
  }
}
