/** One block group: its block bitmap and the counters kept beside it. */
module BlockGroups {
  import opened Words
  import opened Bitmaps
  import opened AllocatorSpec
  import opened Geometry

  const ALLOCATE_FAILED: u32 := 0xFFFF_FFFF

  // ----- steps of the fast reservation -----

  lemma OneBitStep(bits: seq<bv8>, block: nat, left: nat)
    requires Room(bits, block, left) && left > 0
    ensures block / 8 < |bits| && Within(bits, block) && 0 <= block % 8 < 8
    ensures IsSet(bits, block) == Test(bits[block / 8], Mask(block % 8))
    ensures IsSet(bits, block) ==> SlowReserve(bits, block, left) == AlreadyReserved
    ensures var next := SetBit(bits, block);
            && Room(next, block + 1, left - 1)
            && (!IsSet(bits, block) ==> SlowReserve(bits, block, left) == SlowReserve(next, block + 1, left - 1))
  {
    hide Test, Mask, With;
  }

  lemma OneByteStep(bits: seq<bv8>, block: nat, left: nat)
    requires Room(bits, block, left) && left >= 8 && block % 8 == 0
    ensures block / 8 < |bits|
    ensures bits[block / 8] != 0 ==> SlowReserve(bits, block, left) == AlreadyReserved
    ensures var next := bits[block / 8 := 0xFF];
            && Room(next, block + 8, left - 8)
            && (bits[block / 8] == 0 ==> SlowReserve(bits, block, left) == SlowReserve(next, block + 8, left - 8))
  {
    EightAtOnce(bits, block / 8, left - 8);
    hide SlowReserve;
  }

  lemma NothingLeft(bits: seq<bv8>, block: nat)
    requires Room(bits, block, 0)
    ensures SlowReserve(bits, block, 0) == Reserved(bits)
  {}

  /** num & ~7 */
  function WholeBytes(num: u32): nat { And(num, 0xFFFF_FFF8) }

  lemma WholeBytesIs(num: u32)
    ensures WholeBytes(num) == num / 8 * 8 <= num
  {
    Pow2Values();
    Pow2Add(29, 3);
    assert Pow2(3) == 8;
    AndHigh(num, 29, 3);
    QuotientBelow(num, Pow2(29), 8);
    hide And, Pow2;
  }

  // ----- a fresh group -----

  /** Sound groups whose bitmaps fit in a block and whose block numbers stay clear of the failure value. */
  ghost predicate Buildable(info: Info, aux: Aux) {
    && Sound(info, aux)
    && info.blocksPerGroup <= 8 * info.blockSize <= 0x8000_0000
    && aux.lenBlocks + info.blocksPerGroup < 0xFFFF_FFFF
  }

  /** The counters after init_bg. A short group that holds only its header gets a free run of no blocks at its
      end. */
  ghost function InitialGroup(info: Info, aux: Aux, i: nat): Group
    requires i < aux.groups && Buildable(info, aux)
  {
    Sizes(info, aux, i);
    var size, header := GroupSize(info, aux, i), GroupHeader(info, aux, i);
    Group(FirstBlock(info, aux, i), if size < info.blocksPerGroup && size == header then info.blocksPerGroup else header,
          size - header, 0)
  }

  lemma Sizes(info: Info, aux: Aux, i: nat)
    requires i < aux.groups && Buildable(info, aux)
    ensures 0 <= FirstBlock(info, aux, i) < aux.lenBlocks && aux.lenBlocks + info.blocksPerGroup < 0xFFFF_FFFF
    ensures 2 <= GroupHeader(info, aux, i) <= GroupSize(info, aux, i) <= info.blocksPerGroup
    ensures info.blocksPerGroup <= 8 * info.blockSize && info.blockSize <= 0x1000_0000
  {
    MulNonNegative(i, info.blocksPerGroup);
    assert GroupHeader(info, aux, i) <= GroupSize(info, aux, i);
    hide HasSuperBlock;
  }

  lemma HeaderOfGroup(info: Info, aux: Aux, i: nat, super: bool)
    requires i < aux.groups && Buildable(info, aux) && super == HasSuperBlock(info.sparse, i)
    ensures GroupHeader(info, aux, i) == 2 + aux.inodeTableBlocks
                                         + (if super then 1 + aux.bgDescBlocks + aux.bgDescReserveBlocks else 0)
    ensures 0 <= FirstBlock(info, aux, i) && FirstBlock(info, aux, i) + GroupHeader(info, aux, i) < 0x1_0000_0000
    ensures info.blocksPerGroup <= 8 * info.blockSize && info.blockSize <= 0x1000_0000
    ensures var block := FirstBlock(info, aux, i) + (if super then 1 + aux.bgDescBlocks + aux.bgDescReserveBlocks else 0);
            PartAt(info, aux, i, Extent(Bitmaps, block, 2))
  {
    Sizes(info, aux, i);
    HeaderBelow(info, aux, i);
    hide HasSuperBlock, FirstBlock, Sound;
    var parts := HeaderParts(aux, FirstBlock(info, aux, i), super);
    assert parts[|parts| - 2] in parts;
  }

  class BlockGroup {
    var firstBlock: u32
    var headerBlocks: nat
    var dataBlocksUsed: nat
    var hasSuperblock: bool
    var freeBlocks: u32
    var firstFreeBlock: u32
    const blockBitmap: array<bv8>
    var bitmapsBlock: u32    // where the two bitmaps are queued

    /** init_bg: the header is reserved in front, and the blocks past the end of the device at the back. */
    constructor (info: Info, aux: Aux, i: nat, super: bool)
      requires super == HasSuperBlock(info.sparse, i) && i < aux.groups && Buildable(info, aux)
      ensures Valid(info.blocksPerGroup) && fresh(blockBitmap) && View() == InitialGroup(info, aux, i)
      ensures PartAt(info, aux, i, Extent(Bitmaps, bitmapsBlock, 2)) && blockBitmap.Length == info.blockSize
      ensures super == hasSuperblock
    {
      hide *;
      HeaderOfGroup(info, aux, i, super);
      var header := 2 + aux.inodeTableBlocks;
      hasSuperblock := super;
      if super {
        header := header + (1 + aux.bgDescBlocks + aux.bgDescReserveBlocks);
      }
      blockBitmap := new bv8[info.blockSize](_ => 0);
      headerBlocks := header;
      firstBlock := FirstBlock(info, aux, i);
      var block: u32 := FirstBlock(info, aux, i);
      if super {
        block := block + (1 + aux.bgDescBlocks + aux.bgDescReserveBlocks);
      }
      bitmapsBlock := block;
      dataBlocksUsed := 0;
      freeBlocks := info.blocksPerGroup;
      firstFreeBlock := 0;
      new;
      FreshRun(blockBitmap[..], info.blocksPerGroup);
      Reserve(info, aux, i);
    }

    /** The two reservations of init_bg. */
    method Reserve(info: Info, aux: Aux, i: nat)
      requires i < aux.groups && Buildable(info, aux)
      requires firstBlock == FirstBlock(info, aux, i) && headerBlocks == GroupHeader(info, aux, i)
      requires dataBlocksUsed == 0 && freeBlocks == info.blocksPerGroup && firstFreeBlock == 0
      requires blockBitmap.Length == info.blockSize && FreeRun(blockBitmap[..], info.blocksPerGroup, 0, info.blocksPerGroup)
      modifies this`freeBlocks, this`firstFreeBlock, blockBitmap
      ensures Valid(info.blocksPerGroup) && View() == InitialGroup(info, aux, i)
    {
      var n := info.blocksPerGroup;
      Sizes(info, aux, i);
      OverrunIs(info, aux, i);
      hide *;
      ReserveFront(blockBitmap[..], n, 0, n, headerBlocks);
      var ok := ReserveBlocks(firstFreeBlock, headerBlocks);
      ReserveOverrun(info, aux, i);
      Settled(info, aux, i);
    }

    /** The second reservation: the blocks past the end of the device, at the back of a short group. */
    method ReserveOverrun(info: Info, aux: Aux, i: nat)
      requires i < aux.groups && Buildable(info, aux) && blockBitmap.Length == info.blockSize
      requires headerBlocks == GroupHeader(info, aux, i) == firstFreeBlock
      requires freeBlocks == info.blocksPerGroup - headerBlocks
      requires FreeRun(blockBitmap[..], info.blocksPerGroup, headerBlocks, info.blocksPerGroup - headerBlocks)
      modifies this`freeBlocks, this`firstFreeBlock, blockBitmap
      ensures var n, size, header := info.blocksPerGroup, GroupSize(info, aux, i), GroupHeader(info, aux, i);
              && firstFreeBlock == (if size < n && size == header then n else header)
              && freeBlocks == size - header
              && FreeRun(blockBitmap[..], n, header, size - header)
    {
      var n := info.blocksPerGroup;
      Sizes(info, aux, i);
      OverrunIs(info, aux, i);
      hide *;
      var overrun := Overrun(info, aux, i);
      if overrun > 0 {
        var ok;
        if overrun <= n {
          ReserveBack(blockBitmap[..], n, headerBlocks, n - headerBlocks, overrun);
          ok := ReserveBlocks(n - overrun, overrun);
        } else {
          ok := ReserveBlocks(Wrap(n - overrun), overrun);
        }
      }
    }

    lemma Settled(info: Info, aux: Aux, i: nat)
      requires i < aux.groups && Buildable(info, aux) && blockBitmap.Length == info.blockSize
      requires firstBlock == FirstBlock(info, aux, i) && dataBlocksUsed == 0
      requires var n, size, header := info.blocksPerGroup, GroupSize(info, aux, i), GroupHeader(info, aux, i);
               && firstFreeBlock == (if size < n && size == header then n else header)
               && freeBlocks == size - header
               && FreeRun(blockBitmap[..], n, header, size - header)
      ensures Valid(info.blocksPerGroup) && View() == InitialGroup(info, aux, i)
    {
      Sizes(info, aux, i);
      hide IsSet, GroupHeader, GroupSize, FirstBlock;
    }

    /** bitmap_set_bit */
    method BitmapSetBit(bit: nat) returns (wasSet: bool)
      requires Within(blockBitmap[..], bit)
      modifies blockBitmap
      ensures wasSet == IsSet(old(blockBitmap[..]), bit)
      ensures blockBitmap[..] == if wasSet then old(blockBitmap[..]) else SetBit(old(blockBitmap[..]), bit)
    {
      hide Test, Mask, With;
      if Test(blockBitmap[bit / 8], Mask(bit % 8)) {
        return true;
      }
      blockBitmap[bit / 8] := With(blockBitmap[bit / 8], Mask(bit % 8));
      wasSet := false;
    }

    /** bitmap_set_8_bits */
    method BitmapSet8Bits(bit: nat) returns (previous: bv8)
      requires Within(blockBitmap[..], bit)
      modifies blockBitmap
      ensures previous == old(blockBitmap[bit / 8]) && blockBitmap[..] == old(blockBitmap[..])[bit / 8 := 0xFF]
    {
      previous := blockBitmap[bit / 8];
      blockBitmap[bit / 8] := 0xFF;
    }

    /** The reservation of [start, start + num) stands at bit start + i. */
    ghost predicate Standing(result: Reservation, start: nat, num: nat, i: nat)
      reads blockBitmap
    {
      i <= num && Room(blockBitmap[..], start + i, num - i)
      && result == SlowReserve(blockBitmap[..], start + i, num - i)
    }

    method StepBit(ghost result: Reservation, start: nat, num: nat, i: nat) returns (wasSet: bool)
      requires Standing(result, start, num, i) && i < num
      modifies blockBitmap
      ensures wasSet ==> result == AlreadyReserved
      ensures !wasSet ==> Standing(result, start, num, i + 1)
    {
      hide SlowReserve, SetBit, IsSet;
      OneBitStep(blockBitmap[..], start + i, num - i);
      wasSet := BitmapSetBit(start + i);
    }

    method StepByte(ghost result: Reservation, start: nat, num: nat, i: nat) returns (wasSet: bool)
      requires Standing(result, start, num, i) && i + 8 <= num && (start + i) % 8 == 0
      modifies blockBitmap
      ensures wasSet ==> result == AlreadyReserved
      ensures !wasSet ==> Standing(result, start, num, i + 8)
    {
      hide SlowReserve, IsSet;
      OneByteStep(blockBitmap[..], start + i, num - i);
      var previous := BitmapSet8Bits(start + i);
      wasSet := previous != 0;
    }

    lemma Finished(result: Reservation, start: nat, num: nat)
      requires Standing(result, start, num, num)
      ensures result == Reserved(blockBitmap[..])
    {
      NothingLeft(blockBitmap[..], start + num);
      hide SlowReserve;
    }

    lemma Started(start: nat, num: nat)
      requires Room(blockBitmap[..], start, num)
      ensures Standing(SlowReserve(blockBitmap[..], start, num), start, num, 0)
    {}

    /** The three loops of reserve_blocks. */
    method MarkRange(start: u32, num: u32) returns (ok: bool)
      requires Room(blockBitmap[..], start, num) && blockBitmap.Length <= 0x1000_0000
      modifies blockBitmap
      ensures var slow := SlowReserve(old(blockBitmap[..]), start, num);
              && ok == slow.Reserved?
              && (ok ==> blockBitmap[..] == slow.bits)
    {
      hide *;
      Started(start, num);
      WholeBytesIs(num);
      ghost var result := SlowReserve(blockBitmap[..], start, num);
      var i: int, block: int := 0, start;
      while i < num && block % 8 != 0
        invariant 0 <= i <= num && block == start + i && Standing(result, start, num, i)
      {
        var wasSet := StepBit(result, start, num, i);
        if wasSet {
          return false;
        }
        i, block := i + 1, block + 1;
      }
      while i + 8 <= WholeBytes(num)
        invariant 0 <= i <= num && block == start + i && Standing(result, start, num, i)
        invariant i < num ==> block % 8 == 0
      {
        var wasSet := StepByte(result, start, num, i);
        if wasSet {
          return false;
        }
        i, block := i + 8, block + 8;
      }
      while i < num
        invariant 0 <= i <= num && block == start + i && Standing(result, start, num, i)
      {
        var wasSet := StepBit(result, start, num, i);
        if wasSet {
          return false;
        }
        i, block := i + 1, block + 1;
      }
      Finished(result, start, num);
      ok := true;
    }

    /** reserve_blocks: bits to a byte boundary, whole bytes, and the tail bits do what one bit at a time does. */
    method ReserveBlocks(start: u32, num: u32) returns (ok: bool)
      requires num <= freeBlocks ==> Room(blockBitmap[..], start, num)
      requires blockBitmap.Length <= 0x1000_0000
      modifies this`freeBlocks, this`firstFreeBlock, blockBitmap
      ensures num > old(freeBlocks) ==> !ok && blockBitmap[..] == old(blockBitmap[..])
      ensures num <= old(freeBlocks) ==>
                var slow := SlowReserve(old(blockBitmap[..]), start, num);
                && ok == slow.Reserved?
                && (ok ==> blockBitmap[..] == slow.bits)
      ensures ok ==> freeBlocks == old(freeBlocks) - num
                     && firstFreeBlock == if start == old(firstFreeBlock) then start + num else old(firstFreeBlock)
      ensures !ok ==> freeBlocks == old(freeBlocks) && firstFreeBlock == old(firstFreeBlock)
    {
      hide SlowReserve;
      if num > freeBlocks {
        return false;
      }
      ok := MarkRange(start, num);
      if ok {
        freeBlocks := freeBlocks - num;
        if start == firstFreeBlock {
          firstFreeBlock := start + num;
        }
      }
    }

    /** The free blocks are one run of clear bits among the first n, and the counters show where it is. */
    ghost predicate Valid(n: nat)
      reads this, blockBitmap
    {
      && blockBitmap.Length <= 0x1000_0000
      && firstBlock + n < ALLOCATE_FAILED
      && FreeRun(blockBitmap[..], n, firstFreeBlock, freeBlocks)
    }

    ghost function View(): Group
      reads this
    {
      Group(firstBlock, firstFreeBlock, freeBlocks, dataBlocksUsed)
    }

    lemma FrontRoom(n: nat, len: u32)
      requires Valid(n) && len <= freeBlocks
      ensures Room(blockBitmap[..], firstFreeBlock, len) && blockBitmap.Length <= 0x1000_0000
      ensures firstBlock + firstFreeBlock < ALLOCATE_FAILED
      ensures var slow := SlowReserve(blockBitmap[..], firstFreeBlock, len);
              slow.Reserved? && FreeRun(slow.bits, n, firstFreeBlock + len, freeBlocks - len)
    {
      ReserveFront(blockBitmap[..], n, firstFreeBlock, freeBlocks, len);
      hide IsSet, SlowReserve;
    }

    /** ext4_allocate_blocks_from_block_group */
    method Allocate(len: u32, ghost n: nat) returns (block: u32)
      requires Valid(n)
      modifies this`freeBlocks, this`firstFreeBlock, this`dataBlocksUsed, blockBitmap
      ensures Valid(n)
      ensures var g := old(View());
              if len <= g.free then block == g.first + g.start && block != ALLOCATE_FAILED && View() == Grab(g, len)
              else block == ALLOCATE_FAILED && View() == g
    {
      if freeBlocks < len {
        return ALLOCATE_FAILED;
      }
      var start := firstFreeBlock;
      FrontRoom(n, len);
      hide SlowReserve, FreeRun;
      var ok := ReserveBlocks(firstFreeBlock, len);
      dataBlocksUsed := dataBlocksUsed + len;
      block := firstBlock + start;
    }

    /** free_blocks: the last num blocks in front of the free run. */
    method FreeBlocks(num: u32, ghost n: nat)
      requires Valid(n) && num <= firstFreeBlock
      modifies this`freeBlocks, this`firstFreeBlock, blockBitmap
      ensures Valid(n) && View() == GiveBack(old(View()), num)
    {
      ghost var was := blockBitmap[..];
      FreeBound(n);
      ClearBack(num);
      FreeFront(was, blockBitmap[..], n, firstFreeBlock, freeBlocks, num);
      hide FreeRun;
      freeBlocks := freeBlocks + num;
      firstFreeBlock := firstFreeBlock - num;
    }

    lemma FreeBound(n: nat)
      requires Valid(n)
      ensures firstFreeBlock + freeBlocks <= n < TWO32 && firstFreeBlock <= 8 * blockBitmap.Length
    {}

    method ClearBack(num: u32)
      requires num <= firstFreeBlock <= 8 * blockBitmap.Length
      modifies blockBitmap
      ensures RangeRemoved(old(blockBitmap[..]), blockBitmap[..], firstFreeBlock - num, num)
    {
      hide *;
      ghost var was := blockBitmap[..];
      NoneRemoved(was, firstFreeBlock);
      var block: int := firstFreeBlock - 1;
      for i := 0 to num
        invariant block == firstFreeBlock - 1 - i
        invariant RangeRemoved(was, blockBitmap[..], firstFreeBlock - i, i)
      {
        ghost var before := blockBitmap[..];
        SameLength(was, before, firstFreeBlock - i, i);
        OneRemoved(was, before, firstFreeBlock - i, i);
        ClearOne(block);
        block := block - 1;
      }
    }

    method ClearOne(block: nat)
      requires Within(blockBitmap[..], block)
      modifies blockBitmap
      ensures blockBitmap[..] == ClearBit(old(blockBitmap[..]), block)
    {
      hide Mask, Without;
      blockBitmap[block / 8] := Without(blockBitmap[block / 8], Mask(block % 8));
    }
  }

  lemma SameLength(x: seq<bv8>, y: seq<bv8>, start: nat, num: nat)
    requires RangeRemoved(x, y, start, num)
    ensures |x| == |y|
    ensures 0 < start <= 8 * |x| ==> Within(y, start - 1)
  {}
}
