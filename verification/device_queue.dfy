/** The queue of a finished filesystem: every item on the device, behind the superblock and the descriptors. */
module DeviceQueue {
  import opened Words
  import opened Geometry
  import opened AllocatorSpec
  import opened AllocatorRuns
  import opened BlockGroups
  import opened AllocatorSafety
  import opened WriteQueue
  import opened Ext4Image
  import opened QueueAreas
  import opened HeaderQueue
  import opened FileLayout
  import opened ImageWrites
  import OutputFiles
  import Files
  import SparseFormat
  import S = ExtentsSpec

  /** The first block behind the superblock and the descriptors of group 0. */
  function HeadEnd(aux: Aux): nat { aux.firstDataBlock + 1 + aux.bgDescBlocks }

  /** A run of blocks behind the heads, on the device, and no longer than a group. */
  predicate OnDevice(info: Info, aux: Aux, r: Run) {
    HeadEnd(aux) <= r.block && r.block + r.len <= aux.lenBlocks && r.len <= info.blocksPerGroup
  }

  lemma FirstHeader(info: Info, aux: Aux)
    ensures FirstBlock(info, aux, 0) == aux.firstDataBlock && HasSuperBlock(info.sparse, 0)
    ensures GroupHeader(info, aux, 0) >= 1 + aux.bgDescBlocks
  {}

  lemma BehindHeads(info: Info, aux: Aux, i: nat)
    requires Buildable(info, aux) && 0 < i < aux.groups
    ensures HeadEnd(aux) <= FirstBlock(info, aux, i)
  {
    FirstHeader(info, aux);
    GroupsApart(info, aux, 0, i);
    hide Buildable, FirstBlock, GroupHeader, HasSuperBlock;
  }

  lemma PartOnDevice(info: Info, aux: Aux, k: Key)
    requires Buildable(info, aux) && Queueable(info, aux, k)
    ensures OnDevice(info, aux, AreaOf(info, aux, k))
  {
    Sizes(info, aux, k.group);
    AreaInHeader(info, aux, k);
    FirstHeader(info, aux);
    AreaBounds(info, aux, k, HasSuperBlock(info.sparse, k.group));
    if k.group > 0 {
      BehindHeads(info, aux, k.group);
    }
    hide Buildable, FirstBlock, GroupHeader, HasSuperBlock, AreaOf;
  }

  lemma LiveRunOnDevice(info: Info, aux: Aux, gs: seq<Group>, live: seq<Run>, j: nat)
    requires Buildable(info, aux) && Safe(gs, live, Shapes(info, aux)) && j < |live| && live[j].len > 0
    ensures OnDevice(info, aux, live[j])
  {
    var r, shapes := live[j], Shapes(info, aux);
    assert AllocatorRuns.Inside(r, gs, shapes) && Fits(gs[r.bg], shapes[r.bg]);
    ShapeBounds(info, aux, r.bg);
    FirstHeader(info, aux);
    if r.bg > 0 {
      BehindHeads(info, aux, r.bg);
    }
    hide Buildable, FirstBlock, GroupHeader, GroupSize, HasSuperBlock, InitialGroup;
  }

  /** An area is that of a part, or a live region. */
  lemma WhichArea(info: Info, aux: Aux, keys: seq<Key>, live: seq<Run>, a: Run) returns (i: nat)
    requires a in AreasOf(info, aux, keys) + live
    ensures i < |keys| + |live|
    ensures i < |keys| ==> AreaOf(info, aux, keys[i]) == a
    ensures i >= |keys| ==> live[i - |keys|] == a
  {
    var areas := AreasOf(info, aux, keys) + live;
    hide AreaOf;
    i :| 0 <= i < |areas| && areas[i] == a;
  }

  lemma KeyOk(info: Info, aux: Aux, keys: seq<Key>, i: nat)
    requires KeysOk(info, aux, keys) && i < |keys|
    ensures Queueable(info, aux, keys[i])
  {
    hide Queueable;
  }

  /** Every area that holds an item is on the device. */
  lemma AreaOnDevice(info: Info, aux: Aux, keys: seq<Key>, gs: seq<Group>, live: seq<Run>, items: seq<Item>, a: Run)
    requires Buildable(info, aux) && Laid(info, aux, keys, gs, live, items)
    requires a in AreasOf(info, aux, keys) + live && a.len > 0
    ensures OnDevice(info, aux, a)
  {
    hide *;
    LaidParts(info, aux, keys, gs, live, items);
    var i := WhichArea(info, aux, keys, live, a);
    if i < |keys| {
      KeyOk(info, aux, keys, i);
      PartOnDevice(info, aux, keys[i]);
    } else {
      LiveRunOnDevice(info, aux, gs, live, i - |keys|);
    }
  }

  lemma FilledArea(info: Info, aux: Aux, a: Run, x: Item, bs: nat)
    requires bs > 0 && Fills(a, x, bs) && (a.len > 0 ==> OnDevice(info, aux, a))
    ensures Backed(x.source) && Data(x.source) != []
    ensures HeadEnd(aux) <= x.block && x.block + BlockCount(x, bs) <= aux.lenBlocks
    ensures BlockCount(x, bs) <= info.blocksPerGroup
  {
    CountPositive(|Data(x.source)|, bs);
    hide DivRoundUp;
  }

  /** Every item lies on the device, behind the heads. */
  lemma ItemOnDevice(info: Info, aux: Aux, keys: seq<Key>, gs: seq<Group>, live: seq<Run>, items: seq<Item>, i: nat)
    requires Buildable(info, aux) && Laid(info, aux, keys, gs, live, items) && i < |items| && info.blockSize > 0
    ensures Backed(items[i].source) && Data(items[i].source) != []
    ensures HeadEnd(aux) <= items[i].block && items[i].block + BlockCount(items[i], info.blockSize) <= aux.lenBlocks
    ensures BlockCount(items[i], info.blockSize) <= info.blocksPerGroup
  {
    LaidParts(info, aux, keys, gs, live, items);
    var areas := AreasOf(info, aux, keys) + live;
    assert Housed(items[i], areas, info.blockSize);
    hide Laid, Buildable, Settled, Fills, BlockCount, AreasOf, Safe, KeysOk;
    var a :| a in areas && Fills(a, items[i], info.blockSize);
    if a.len > 0 {
      AreaOnDevice(info, aux, keys, gs, live, items, a);
    }
    FilledArea(info, aux, a, items[i], info.blockSize);
  }

  // ----- the checks of the writer -----

  /** A chunk of a file that ends at the very end of the image. */
  predicate EndsAt(x: Item, bs: nat, len: nat) {
    x.source.FileChunk? && x.block * bs + x.source.len == len
  }

  /** No chunk of a file ends at the very end of the image. */
  ghost predicate NoFileAtEnd(items: seq<Item>, bs: nat, len: nat) {
    forall x :: x in items ==> !EndsAt(x, bs, len)
  }

  lemma EndsIs(x: Item, bs: nat, len: nat)
    requires Backed(x.source)
    ensures EndsAt(x, bs, len) <==> x.source.FileChunk? && ItemWrite(x, bs).off + |ItemWrite(x, bs).data| == len
  {}

  lemma ItemWithin(x: Item, bs: nat, blocks: nat, len: nat)
    requires bs > 0 && Backed(x.source) && x.block + BlockCount(x, bs) <= blocks && S.Bytes(blocks, bs) <= len
    ensures ItemWrite(x, bs).off + |ItemWrite(x, bs).data| <= len && ItemWrite(x, bs).data == Data(x.source)
  {
    DivRoundUpBounds(|Data(x.source)|, bs);
    hide DivRoundUp;
    MulGap(x.block + BlockCount(x, bs), blocks, bs);
    assert (x.block + BlockCount(x, bs)) * bs == x.block * bs + BlockCount(x, bs) * bs;
  }

  /** On such a queue the only check of the writer that can fail is the one for the end of the image. */
  lemma QueueInside(info: Info, aux: Aux, keys: seq<Key>, gs: seq<Group>, live: seq<Run>, items: seq<Item>, len: nat)
    requires Buildable(info, aux) && Laid(info, aux, keys, gs, live, items) && info.blockSize > 0
    requires S.Bytes(aux.lenBlocks, info.blockSize) <= len
    ensures AllBacked(items) && BlocksApart(items, info.blockSize)
    ensures NoFileAtEnd(items, info.blockSize, len) ==> Ext4Image.Inside(items, info.blockSize, len)
  {
    LaidParts(info, aux, keys, gs, live, items);
    var bs: nat := info.blockSize;
    hide Laid, Buildable, BlocksApart, Housed, ItemWrite, BlockCount, S.Bytes, Safe, KeysOk, Data, EndsAt;
    if NoFileAtEnd(items, bs, len) {
      forall i | 0 <= i < |items|
        ensures ItemWrite(items[i], bs).data != [] && ItemWrite(items[i], bs).off + |ItemWrite(items[i], bs).data| <= len
        ensures items[i].source.FileChunk? ==> ItemWrite(items[i], bs).off + |ItemWrite(items[i], bs).data| != len
      {
        ItemOnDevice(info, aux, keys, gs, live, items, i);
        ItemWithin(items[i], bs, aux.lenBlocks, len);
        EndsIs(items[i], bs, len);
        assert items[i] in items;
      }
    }
  }

  lemma ItemSized(x: Item, bs: nat, n: nat)
    requires bs > 0 && Backed(x.source) && BlockCount(x, bs) <= n
    ensures |Data(x.source)| <= S.Bytes(n, bs)
  {
    DivRoundUpBounds(|Data(x.source)|, bs);
    hide DivRoundUp;
    MulGap(BlockCount(x, bs), n, bs);
  }

  lemma GroupBytes(n: nat, bs: nat)
    requires bs <= 4096 && n <= 8 * bs
    ensures S.Bytes(n, bs) <= 0x800_0000
  {
    MulGap(n, 32768, bs);
    MulGap(bs, 4096, 32768);
    assert 32768 * bs == bs * 32768;
  }

  lemma QueueSized(info: Info, aux: Aux, keys: seq<Key>, gs: seq<Group>, live: seq<Run>, items: seq<Item>)
    requires Buildable(info, aux) && Laid(info, aux, keys, gs, live, items) && 0 < info.blockSize <= 4096
    ensures AllBacked(items) && ItemsSized(items, info.blockSize)
  {
    LaidParts(info, aux, keys, gs, live, items);
    var bs: nat := info.blockSize;
    assert AllBacked(items) && info.blocksPerGroup <= 8 * bs;
    hide Laid, Buildable, Settled, BlockCount, S.Bytes, Safe, KeysOk, Data;
    GroupBytes(info.blocksPerGroup, bs);
    forall i | 0 <= i < |items|
      ensures |Data(items[i].source)| + bs <= OutputFiles.INT_MAX
    {
      ItemOnDevice(info, aux, keys, gs, live, items, i);
      ItemSized(items[i], bs, info.blocksPerGroup);
    }
  }

  lemma {:induction false} AscendingBlocks(items: seq<Item>, bs: nat, i: nat)
    requires bs > 0 && AllBacked(items) && Ascending(items, bs) && i < |items|
    requires forall j :: 0 <= j < |items| ==> BlockCount(items[j], bs) > 0
    ensures i <= items[i].block
  {
    hide BlockCount;
    if i > 0 {
      AscendingBlocks(items, bs, i - 1);
      assert items[i - 1].block + BlockCount(items[i - 1], bs) <= items[i].block;
    }
  }

  lemma AscendsAt(items: seq<Item>, bs: nat, i: nat, j: nat)
    requires bs > 0 && AllBacked(items) && Sorted(items) && BlocksApart(items, bs) && i < j < |items|
    requires BlockCount(items[j], bs) > 0
    ensures items[i].block + BlockCount(items[i], bs) <= items[j].block
  {
    hide BlockCount;
  }

  /** There are no more items than blocks. */
  lemma {:induction false} QueueCount(info: Info, aux: Aux, keys: seq<Key>, gs: seq<Group>, live: seq<Run>, items: seq<Item>)
    requires Buildable(info, aux) && Laid(info, aux, keys, gs, live, items) && Sorted(items) && info.blockSize > 0
    ensures |items| <= aux.lenBlocks
  {
    LaidParts(info, aux, keys, gs, live, items);
    var bs: nat := info.blockSize;
    assert AllBacked(items) && BlocksApart(items, bs);
    hide Laid, Buildable, Settled, BlockCount, Safe, KeysOk, BlocksApart, Sorted, Data;
    forall i | 0 <= i < |items|
      ensures BlockCount(items[i], bs) > 0
    {
      ItemOnDevice(info, aux, keys, gs, live, items, i);
      PositiveCount(items[i], bs);
    }
    forall i, j | 0 <= i < j < |items|
      ensures items[i].block + BlockCount(items[i], bs) <= items[j].block
    {
      AscendsAt(items, bs, i, j);
    }
    if items != [] {
      AscendingBlocks(items, bs, |items| - 1);
      ItemOnDevice(info, aux, keys, gs, live, items, |items| - 1);
    }
  }

  lemma PositiveCount(x: Item, bs: nat)
    requires bs > 0 && Backed(x.source) && Data(x.source) != []
    ensures BlockCount(x, bs) > 0
  {
    CountPositive(|Data(x.source)|, bs);
    hide DivRoundUp;
  }

  // ----- the writes in front of the queue -----

  lemma WholeBlocksEnd(off: nat, data: seq<byte>, n: nat, bs: nat)
    requires bs > 0 && |data| == S.Bytes(n, bs)
    ensures End(Write(off, data), bs) == off + S.Bytes(n, bs)
  {
    DivRoundUpUnique(S.Bytes(n, bs), bs, n);
    hide DivRoundUp;
  }

  /** The superblock and the descriptors end at block HeadEnd. */
  lemma HeadsEnd(sb: seq<byte>, bgDesc: seq<byte>, aux: Aux, bs: nat)
    requires |sb| == 1024 && bs >= 1024 && aux.firstDataBlock == (if bs > 1024 then 0 else 1)
    requires |bgDesc| == S.Bytes(aux.bgDescBlocks, bs)
    ensures var heads := HeadWrites(sb, bgDesc, aux.firstDataBlock, bs);
            && |heads| == 2 && Divides(bs, heads[0].off) && Divides(bs, heads[1].off)
            && heads[0].off + |heads[0].data| <= End(heads[0], bs) <= heads[1].off
            && heads[1].off + |heads[1].data| == End(heads[1], bs) == S.Bytes(HeadEnd(aux), bs)
  {
    var heads := HeadWrites(sb, bgDesc, aux.firstDataBlock, bs);
    var first: nat := aux.firstDataBlock;
    WholeBlocksEnd((first + 1) * bs, bgDesc, aux.bgDescBlocks, bs);
    FirstHeadEnd(sb, bs);
    DividesMultiple(bs, first + 1);
    DividesMultiple(bs, first);
    MulNonNegative(aux.bgDescBlocks, bs);
    assert HeadEnd(aux) * bs == (first + 1) * bs + aux.bgDescBlocks * bs;
    hide DivRoundUp, SparseFormat.Padded, Divides, Files.Resize, End;
  }

  lemma FirstHeadEnd(sb: seq<byte>, bs: nat)
    requires |sb| == 1024 && bs >= 1024
    ensures bs > 1024 ==> var w := Write(0, Files.Resize(Zeros(1024) + sb, bs)); |w.data| == bs && End(w, bs) == bs
    ensures bs == 1024 ==> End(Write(1024, sb), bs) == 2048
  {
    DivRoundUpUnique(bs, bs, 1);
    hide DivRoundUp;
  }

  lemma HeadsInFront(info: Info, aux: Aux, keys: seq<Key>, gs: seq<Group>, live: seq<Run>, items: seq<Item>, sb: seq<byte>,
                     bgDesc: seq<byte>, len: nat)
    requires Buildable(info, aux) && Laid(info, aux, keys, gs, live, items) && info.blockSize >= 1024
    requires aux.firstDataBlock == (if info.blockSize > 1024 then 0 else 1)
    requires |sb| == 1024 && |bgDesc| == S.Bytes(aux.bgDescBlocks, info.blockSize) && HeadEnd(aux) <= aux.lenBlocks
    requires S.Bytes(aux.lenBlocks, info.blockSize) <= len
    ensures HeadsFit(sb, bgDesc, aux.firstDataBlock, items, info.blockSize, len)
  {
    var bs: nat := info.blockSize;
    HeadsEnd(sb, bgDesc, aux, bs);
    var heads := HeadWrites(sb, bgDesc, aux.firstDataBlock, bs);
    MulGap(HeadEnd(aux), aux.lenBlocks, bs);
    hide Laid, Buildable, HeadWrites, Divides, End;
    forall i, j | 0 <= i < |heads| && 0 <= j < |items|
      ensures End(heads[i], bs) <= items[j].block * bs
    {
      ItemOnDevice(info, aux, keys, gs, live, items, j);
      MulGap(HeadEnd(aux), items[j].block, bs);
    }
  }
}
