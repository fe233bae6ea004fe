/** From allocation to image and back: a mapped file reads back byte for byte through the tree the code stores. */
module FileReadBack {
  import opened Words
  import opened AllocatorSpec
  import opened AllocatorRuns
  import opened Regions
  import opened BlockGroups
  import opened Allocators
  import opened ExtentsSpec
  import opened ExtentTree
  import opened Extents
  import opened WriteQueue
  import Ext4Image
  import ImageWrites

  /** What a mapped file leaves: its regions are taken, the root of its tree is in i_block, and the extent block and the
      chunks of its contents are queued, unless the regions were too short for the contents. */
  ghost predicate QueuedFor(gs: seq<Group>, blocks: nat, bs: nat, b: Backing, before: seq<Item>, after: seq<Group>,
                            items: seq<Item>, root: seq<byte>, crash: bool)
  {
    var o := AllocatorSpec.DoAllocate(gs, blocks + 1);
    o.Done? && FileQueued(KeptFor(gs, blocks), |o.runs|, bs, b, before, after, items, root, crash)
  }

  ghost predicate FileQueued(kept: Kept, regions: nat, bs: nat, b: Backing, before: seq<Item>, after: seq<Group>,
                             items: seq<Item>, root: seq<byte>, crash: bool)
  {
    && after == kept.groups && BlocksFit(kept.runs) && LeafNumber(kept) < 0x1_0000_0000
    && root == RootOf(kept.runs, LeafNumber(kept), regions)
    && (crash <==> |b.data| > Bytes(Prefix(kept.runs, |kept.runs|), bs))
    && (!crash ==>
          items == Queued(WithLeaf(before, LeafNumber(kept), kept.runs, regions, bs), kept.runs, |kept.runs|, bs, b))
  }

  /** inode_allocate_data_extents and inode_allocate_file_extents: map the file, then queue its contents. */
  method InodeAllocateExtents(a: Allocator, q: Queue, bs: u32, len: nat, b: Backing)
    returns (result: FileResult, crash: bool, root: seq<byte>)
    requires a.Valid() && q.Valid() && bs > 0 && DivRoundUp(len, bs) < 0xFFFF_FFFF && a.n * bs < 0x1_0000_0000
    modifies a.Repr(), q, q.nodes
    ensures a.Valid() && q.Valid() && result == FileOutcome(old(a.View()), DivRoundUp(len, bs), bs)
    ensures result == Mapped ==>
              QueuedFor(old(a.View()), DivRoundUp(len, bs), bs, b, old(q.Items()), a.View(), q.Items(), root, crash)
    ensures forall n :: n in q.nodes ==> n in old(q.nodes) || fresh(n)
  {
    hide Allocator.Valid, Allocator.View, AllocatorSpec.DoAllocate, DivRoundUp, FileOutcome, KeptFor, MappedFor, LeafFor;
    hide QueuedFor, Queue.Valid, Queue.Items, LengthsFit, BlocksFit;
    ghost var gs, blocks, before := a.View(), DivRoundUp(len, bs), q.Items();
    KeptFits(a, blocks, bs);
    var alloc;
    crash := false;
    result, alloc, root := DoInodeAllocateExtents(a, q, bs, len);
    if result == Mapped {
      assert forall i :: 0 <= i < |q.nodes| ==> fresh(q.nodes[i]) || q.nodes[i] in old(q.nodes);
      crash := QueueMapped(gs, blocks, a.View(), alloc, root, q, bs, b, before);
    }
  }

  method QueueMapped(ghost gs: seq<Group>, ghost blocks: nat, ghost after: seq<Group>, alloc: BlockAllocation,
                     ghost root: seq<byte>, q: Queue, bs: u32, b: Backing, ghost before: seq<Item>) returns (crash: bool)
    requires MappedFor(gs, blocks, after, alloc, root) && LeafFor(gs, blocks, bs, before, q.Items()) && q.Valid()
    requires AllocatorSpec.DoAllocate(gs, blocks + 1).Done?
    requires BlocksFit(KeptFor(gs, blocks).runs) && LengthsFit(KeptFor(gs, blocks).runs, bs)
    modifies alloc.list`iter, alloc.list`partialIter, q, q.nodes
    ensures q.Valid() && QueuedFor(gs, blocks, bs, b, before, after, q.Items(), root, crash)
    ensures forall n :: n in q.nodes ==> n in old(q.nodes) || fresh(n)
  {
    hide *;
    MappedParts(gs, blocks, after, alloc, root);
    ghost var items := q.Items();
    crash := CreateBacking(alloc.list, q, bs, b);
    QueuedParts(gs, blocks, bs, b, before, items, after, q.Items(), root, crash);
  }

  lemma MappedParts(gs: seq<Group>, blocks: nat, after: seq<Group>, alloc: BlockAllocation, root: seq<byte>)
    requires MappedFor(gs, blocks, after, alloc, root) && AllocatorSpec.DoAllocate(gs, blocks + 1).Done?
    ensures var kept := KeptFor(gs, blocks);
            && RunsOf(alloc.list.nodes) == kept.runs && after == kept.groups && LeafNumber(kept) < 0x1_0000_0000
            && root == RootOf(kept.runs, LeafNumber(kept), |AllocatorSpec.DoAllocate(gs, blocks + 1).runs|)
    ensures alloc.list.Chained() && alloc.list.ReadsAt(0) && alloc.list.partialIter == 0
  {
    hide AllocatorSpec.DoAllocate, KeptFor, RootOf, LeafNumber, RunsOf;
  }

  lemma QueuedParts(gs: seq<Group>, blocks: nat, bs: nat, b: Backing, before: seq<Item>, middle: seq<Item>,
                    after: seq<Group>, items: seq<Item>, root: seq<byte>, crash: bool)
    requires AllocatorSpec.DoAllocate(gs, blocks + 1).Done? && LeafFor(gs, blocks, bs, before, middle)
    requires var kept := KeptFor(gs, blocks);
             && BlocksFit(kept.runs) && after == kept.groups && LeafNumber(kept) < 0x1_0000_0000
             && root == RootOf(kept.runs, LeafNumber(kept), |AllocatorSpec.DoAllocate(gs, blocks + 1).runs|)
             && (crash <==> |b.data| > Bytes(Prefix(kept.runs, |kept.runs|), bs))
             && (!crash ==> items == Queued(middle, kept.runs, |kept.runs|, bs, b))
    ensures QueuedFor(gs, blocks, bs, b, before, after, items, root, crash)
  {
    hide AllocatorSpec.DoAllocate, KeptFor, RootOf, LeafNumber, Bytes, Prefix, Queued, WithLeaf, BlocksFit;
  }

  lemma {:induction false} KeptFits(a: Allocator, blocks: nat, bs: nat)
    requires a.Valid() && blocks < 0xFFFF_FFFF && a.n * bs < 0x1_0000_0000
    ensures AllocatorSpec.DoAllocate(a.View(), blocks + 1).Done? ==>
              BlocksFit(KeptFor(a.View(), blocks).runs) && LengthsFit(KeptFor(a.View(), blocks).runs, bs)
  {
    var gs := a.View();
    AllocationBounded(a, blocks + 1);
    AllocationWithin(a, blocks + 1);
    if AllocatorSpec.DoAllocate(gs, blocks + 1).Done? {
      KeptFacts(gs, blocks);
      RunsFit(AllocatorSpec.DoAllocate(gs, blocks + 1), a.n, bs);
    }
    hide AllocatorSpec.DoAllocate, KeptFor, Keep, AtBack, AllPositive, Prefix, Total, NoWrap;
  }

  lemma {:induction false} RunsFit(o: Outcome, n: nat, bs: nat)
    requires o.Done? && o.runs != [] && AtBack(o.groups, o.runs[0]) && AllPositive(o.runs) && NoWrap(o.runs)
    requires (forall i :: 0 <= i < |o.runs| ==> o.runs[i].len <= n) && n * bs < 0x1_0000_0000
    ensures var kept := Keep(o.groups, o.runs); BlocksFit(kept.runs) && LengthsFit(kept.runs, bs)
  {
    var kept := Keep(o.groups, o.runs).runs;
    if |o.runs| > 3 {
      KeepMany(o.groups, o.runs);
    } else {
      KeepFew(o.groups, o.runs);
    }
    hide Keep, AtBack;
    forall i | 0 <= i < |kept|
      ensures kept[i].block < 0x1_0000_0000 && Bytes(kept[i].len, bs) < 0x1_0000_0000
    {
      assert o.runs[i].len > 0 && o.runs[i].block + o.runs[i].len <= 0x1_0000_0000;
      assert kept[i].len <= n && kept[i].block + kept[i].len <= 0x1_0000_0000;
      MulGap(kept[i].len, n, bs);
      assert kept[i].len > 0 by {
        assert i == 0 || kept[i] == o.runs[i];
      }
    }
  }

  // ----- back from the image -----

  /** The queue that reaches the image holds the chunks of the file. */
  ghost predicate HoldsParts(items: seq<Item>, runs: seq<Run>, bs: nat, b: Backing)
    requires BlocksFit(runs)
  {
    forall k :: 0 <= k < |runs| && Cap(runs, k, bs, |b.data|) < |b.data| ==> PartItem(runs, k, bs, b) in items
  }

  /** The chunks of a mapped file are all in the queue, and later insertions leave them there. */
  lemma {:induction false} QueuedHoldsParts(before: seq<Item>, runs: seq<Run>, bs: nat, b: Backing)
    requires BlocksFit(runs)
    ensures HoldsParts(Queued(before, runs, |runs|, bs, b), runs, bs, b)
  {
    hide Queued, PartItem, Cap;
    forall k | 0 <= k < |runs| && Cap(runs, k, bs, |b.data|) < |b.data|
      ensures PartItem(runs, k, bs, b) in Queued(before, runs, |runs|, bs, b)
    {
      PartQueued(before, runs, |runs|, bs, b, k);
    }
  }

  lemma PartOfItem(runs: seq<Run>, k: nat, bs: nat, b: Backing)
    requires k < |runs| && BlocksFit(runs) && runs[k].block < TWO32
    ensures var x := PartItem(runs, k, bs, b);
            Ext4Image.Backed(x.source) && Ext4Image.Data(x.source) == Part(runs, k, bs, b.data) && x.block == runs[k].block
  {
    CapGrows(runs, k, bs, |b.data|);
    hide Cap;
  }

  /** A queued item of the image is found at its block. */
  lemma {:induction false} ItemLanded(items: seq<Item>, i: nat, bs: nat, heads: seq<ImageWrites.Write>, len: nat)
    requires bs > 0 && Ext4Image.AllBacked(items) && i < |items| && Ext4Image.Backed(items[i].source)
    requires ImageWrites.WellPlaced(heads + Ext4Image.ItemWrites(items, bs), bs, len)
    ensures var image, data, at := ImageWrites.FlatImage(heads + Ext4Image.ItemWrites(items, bs), len),
                                   Ext4Image.Data(items[i].source), Bytes(items[i].block, bs);
            at + |data| <= |image| && image[at..at + |data|] == data
  {
    var ws := heads + Ext4Image.ItemWrites(items, bs);
    assert ws[|heads| + i] == Ext4Image.ItemWrite(items[i], bs);
    ImageWrites.ImageHoldsWrite(ws, bs, len, |heads| + i);
    assert ws[|heads| + i] in ws;
    WrittenInside(ws, |heads| + i, bs, len);
    hide ImageWrites.WellPlaced, ImageWrites.FlatImage, Ext4Image.Data;
  }

  lemma WrittenInside(ws: seq<ImageWrites.Write>, i: nat, bs: nat, len: nat)
    requires bs > 0 && ImageWrites.WellPlaced(ws, bs, len) && i < |ws|
    ensures ws[i].off + |ws[i].data| <= len
  {}

  lemma {:induction false} PartIsWritten(runs: seq<Run>, k: nat, bs: nat, b: Backing, items: seq<Item>,
                                         heads: seq<ImageWrites.Write>, len: nat)
    requires k < |runs| && BlocksFit(runs) && bs > 0 && Ext4Image.AllBacked(items) && HoldsParts(items, runs, bs, b)
    requires ImageWrites.WellPlaced(heads + Ext4Image.ItemWrites(items, bs), bs, len)
    ensures PartWritten(ImageWrites.FlatImage(heads + Ext4Image.ItemWrites(items, bs), len), runs, k, bs, b.data)
  {
    var image := ImageWrites.FlatImage(heads + Ext4Image.ItemWrites(items, bs), len);
    hide *;
    if Cap(runs, k, bs, |b.data|) < |b.data| {
      var i := PartIndex(runs, k, bs, b, items);
      ItemLanded(items, i, bs, heads, len);
      LandedIsWritten(image, runs, k, bs, b.data, items[i].block);
    } else {
      EmptyPart(image, runs, k, bs, b.data);
    }
  }

  lemma PartIndex(runs: seq<Run>, k: nat, bs: nat, b: Backing, items: seq<Item>) returns (i: nat)
    requires k < |runs| && BlocksFit(runs) && HoldsParts(items, runs, bs, b) && Cap(runs, k, bs, |b.data|) < |b.data|
    ensures i < |items| && items[i].block == runs[k].block && Ext4Image.Backed(items[i].source)
    ensures Ext4Image.Data(items[i].source) == Part(runs, k, bs, b.data)
  {
    BlockFits(runs, k);
    assert PartItem(runs, k, bs, b) in items;
    PartOfItem(runs, k, bs, b);
    hide PartItem, Part, Cap, Ext4Image.Data, Ext4Image.Backed;
    i :| 0 <= i < |items| && items[i] == PartItem(runs, k, bs, b);
  }

  lemma LandedIsWritten(image: seq<byte>, runs: seq<Run>, k: nat, bs: nat, data: seq<byte>, block: nat)
    requires k < |runs| && block == runs[k].block
    requires var part, at := Part(runs, k, bs, data), Bytes(block, bs);
             at + |part| <= |image| && image[at..at + |part|] == part
    ensures PartWritten(image, runs, k, bs, data)
  {
    hide Part, Bytes;
  }

  lemma EmptyPart(image: seq<byte>, runs: seq<Run>, k: nat, bs: nat, data: seq<byte>)
    requires k < |runs| && !(Cap(runs, k, bs, |data|) < |data|)
    ensures PartWritten(image, runs, k, bs, data)
  {
    CapGrows(runs, k, bs, |data|);
    hide Cap;
    assert Part(runs, k, bs, data) == [];
  }

  // ----- what the stored tree needs -----

  /** The entries that were counted lie inside their node, and every region fits in one extent. */
  ghost predicate Readable(kept: Kept, regions: nat, bs: nat) {
    && ShortRegions(kept.runs, INIT_MAX_LEN) && |kept.runs| <= regions
    && (LeafNumber(kept) == 0 ==> regions <= 4)
    && (LeafNumber(kept) != 0 ==> regions < 0x1_0000 && regions <= MaxEntries(bs) && bs >= 12)
  }

  lemma {:induction false} SameCount(gs: seq<Group>, runs: seq<Run>)
    requires |runs| > 0 && AllPositive(runs) && AtBack(gs, runs[0])
    ensures |Keep(gs, runs).runs| <= |runs|
    ensures runs[0].len > 1 ==> |Keep(gs, runs).runs| == |runs|
    ensures |runs| <= 3 ==> LeafNumber(Keep(gs, runs)) == 0
  {
    if |runs| > 3 {
      KeepMany(gs, runs);
    } else {
      KeepFew(gs, runs);
    }
    hide Keep;
  }

  lemma {:induction false} ShortKept(gs: seq<Group>, runs: seq<Run>, max: nat)
    requires |runs| > 0 && AllPositive(runs) && AtBack(gs, runs[0]) && ShortRegions(runs, max)
    ensures ShortRegions(Keep(gs, runs).runs, max)
  {
    if |runs| > 3 {
      KeepMany(gs, runs);
    } else {
      KeepFew(gs, runs);
    }
    hide Keep;
    forall i | 0 <= i < |Keep(gs, runs).runs|
      ensures Keep(gs, runs).runs[i].len <= max
    {
      assert i < |runs| ==> runs[i].len <= max;
    }
  }

  lemma FewEntries(bs: nat)
    requires bs < 0x1_0000
    ensures MaxEntries(bs) < 0x1_0000 && (MaxEntries(bs) > 0 ==> bs >= 12)
  {}

  /** A mapped file whose allocation has short regions, and a first one of two blocks unless there are at most three,
      has a readable tree. */
  lemma {:induction false} MappedReadable(gs: seq<Group>, blocks: nat, bs: nat)
    requires blocks < 0xFFFF_FFFF && FileOutcome(gs, blocks, bs) == Mapped && bs < 0x1_0000
    requires AllocatorSpec.DoAllocate(gs, blocks + 1).Done?
    requires var runs := AllocatorSpec.DoAllocate(gs, blocks + 1).runs;
             ShortRegions(runs, INIT_MAX_LEN) && runs != [] && (|runs| <= 3 || runs[0].len >= 2)
    ensures Readable(KeptFor(gs, blocks), |AllocatorSpec.DoAllocate(gs, blocks + 1).runs|, bs)
  {
    var o := AllocatorSpec.DoAllocate(gs, blocks + 1);
    KeptFacts(gs, blocks);
    SameCount(o.groups, o.runs);
    ShortKept(o.groups, o.runs, INIT_MAX_LEN);
    OutcomeIs(gs, blocks, bs);
    EndingIs(KeptFor(gs, blocks), |o.runs|, bs);
    FewEntries(bs);
    hide AllocatorSpec.DoAllocate, KeptFor, LeafNumber, FileOutcome, Ending, Keep, AtBack, AllPositive, ShortRegions, Total;
    hide Prefix, MaxEntries;
  }

  // ----- reading -----

  /** The chunks and the extent block of a file are in the queue. */
  ghost predicate HoldsFile(items: seq<Item>, kept: Kept, regions: nat, bs: nat, b: Backing)
    requires BlocksFit(kept.runs)
  {
    && HoldsParts(items, kept.runs, bs, b) && LeafNumber(kept) < 0x1_0000_0000
    && (LeafNumber(kept) != 0 ==> Item(LeafNumber(kept), Memory(LeafBlock(kept.runs, regions, bs))) in items)
  }

  /** Later insertions leave a file in the queue. */
  lemma {:induction false} MoreHoldsFile(items: seq<Item>, more: seq<Item>, kept: Kept, regions: nat, bs: nat, b: Backing)
    requires BlocksFit(kept.runs) && HoldsFile(items, kept, regions, bs, b) && forall x :: x in items ==> x in more
    ensures HoldsFile(more, kept, regions, bs, b)
  {
    hide PartItem, Cap, LeafBlock, LeafNumber;
  }

  lemma {:induction false} QueuedKeeps(items: seq<Item>, runs: seq<Run>, k: nat, bs: nat, b: Backing)
    requires k <= |runs| && BlocksFit(runs)
    ensures forall x :: x in items ==> x in Queued(items, runs, k, bs, b)
  {
    hide *;
    if k == 0 {
      NothingQueued(items, runs, bs, b);
    } else {
      QueuedMore(items, runs, k - 1, bs, b);
      QueuedKeeps(items, runs, k - 1, bs, b);
      BlockFits(runs, k - 1);
      InsertKeeps(Queued(items, runs, k - 1, bs, b), PartItem(runs, k - 1, bs, b));
    }
  }

  /** Mapping a file puts it into the queue. */
  lemma {:induction false} MappedHoldsFile(gs: seq<Group>, blocks: nat, bs: nat, b: Backing, before: seq<Item>,
                                           after: seq<Group>, items: seq<Item>, root: seq<byte>)
    requires QueuedFor(gs, blocks, bs, b, before, after, items, root, false)
    ensures AllocatorSpec.DoAllocate(gs, blocks + 1).Done? && BlocksFit(KeptFor(gs, blocks).runs)
    ensures HoldsFile(items, KeptFor(gs, blocks), |AllocatorSpec.DoAllocate(gs, blocks + 1).runs|, bs, b)
    ensures forall x :: x in before ==> x in items
  {
    var kept, regions := KeptFor(gs, blocks), |AllocatorSpec.DoAllocate(gs, blocks + 1).runs|;
    var leaf, runs := LeafNumber(kept), kept.runs;
    hide AllocatorSpec.DoAllocate, KeptFor, LeafNumber, LeafBlock, HoldsParts, BlocksFit, Queued, WriteQueue.Insert, RootOf;
    hide Bytes, Prefix;
    var middle := WithLeaf(before, leaf, runs, regions, bs);
    QueuedHoldsParts(middle, runs, bs, b);
    QueuedKeeps(middle, runs, |runs|, bs, b);
    if leaf != 0 {
      InsertKeeps(before, Item(leaf, Memory(LeafBlock(runs, regions, bs))));
    }
  }

  lemma {:induction false} ItemAt(items: seq<Item>, x: Item, bs: nat, heads: seq<ImageWrites.Write>, len: nat)
    requires bs > 0 && Ext4Image.AllBacked(items) && x in items && x.source.Memory?
    requires ImageWrites.WellPlaced(heads + Ext4Image.ItemWrites(items, bs), bs, len)
    ensures var image, at := ImageWrites.FlatImage(heads + Ext4Image.ItemWrites(items, bs), len), Bytes(x.block, bs);
            at + |x.source.data| <= |image| && image[at..at + |x.source.data|] == x.source.data
  {
    var i :| 0 <= i < |items| && items[i] == x;
    ItemLanded(items, i, bs, heads, len);
    hide ImageWrites.WellPlaced, ImageWrites.FlatImage, Ext4Image.ItemWrites, Bytes;
  }

  lemma LeafLength(runs: seq<Run>, regions: nat, bs: nat)
    requires |runs| <= MaxEntries(bs) && bs >= 12
    ensures |LeafBlock(runs, regions, bs)| == bs
  {
    MaxEntriesFit(bs, |runs|);
    hide EncodeSlots, EncodeHead, SlotsOf, MaxEntries;
  }

  /** The tree of a file in the image is read as its stored extents. */
  lemma {:induction false} TreeInImage(kept: Kept, regions: nat, bs: nat, items: seq<Item>, heads: seq<ImageWrites.Write>,
                                       len: nat)
    requires bs > 0 && Readable(kept, regions, bs) && LeafNumber(kept) < 0x1_0000_0000 && Ext4Image.AllBacked(items)
    requires LeafNumber(kept) != 0 ==> Item(LeafNumber(kept), Memory(LeafBlock(kept.runs, regions, bs))) in items
    requires ImageWrites.WellPlaced(heads + Ext4Image.ItemWrites(items, bs), bs, len)
    ensures ReadTree(RootOf(kept.runs, LeafNumber(kept), regions),
                     ImageWrites.FlatImage(heads + Ext4Image.ItemWrites(items, bs), len), bs)
         == Entries(SlotsOf(kept.runs, |kept.runs|) + NoSlots(regions - |kept.runs|))
  {
    var image := ImageWrites.FlatImage(heads + Ext4Image.ItemWrites(items, bs), len);
    var leaf := LeafNumber(kept);
    if leaf == 0 {
      InlineReads(kept.runs, regions, image, bs);
    } else {
      LeafLength(kept.runs, regions, bs);
      ItemAt(items, Item(leaf, Memory(LeafBlock(kept.runs, regions, bs))), bs, heads, len);
      LeafReads(kept.runs, leaf, regions, image, bs);
    }
    hide *;
  }

  lemma ReadsStored(root: seq<byte>, image: seq<byte>, bs: nat, runs: seq<Run>, m: nat, data: seq<byte>, o: nat)
    requires bs > 0 && o < |data| && ReadTree(root, image, bs) == Entries(SlotsOf(runs, |runs|) + NoSlots(m))
    requires Narrow(runs) && ShortRegions(runs, INIT_MAX_LEN)
    requires ReadsByte(image, ExtentsOf(runs, |runs|), bs, o, data[o])
    ensures TreeReadsByte(root, image, bs, o, data[o])
  {
    LookupUnfilled(SlotsOf(runs, |runs|), m, Div(o, bs), INIT_MAX_LEN);
    ShortExact(runs, |runs|, Div(o, bs), INIT_MAX_LEN);
    hide ReadTree, SlotsOf, NoSlots, SlotLookup, ExtentsSpec.Lookup, ExtentsOf, FoundAt, Div, Narrow, ShortRegions;
  }

  /** For every file and every allocator state: if the file is mapped, its regions hold its contents and its tree is
      readable, then every byte comes back when the image is read through the tree the code stores. */
  lemma {:induction false} FileReadsBack(kept: Kept, regions: nat, bs: nat, b: Backing, items: seq<Item>,
                                         heads: seq<ImageWrites.Write>, len: nat)
    requires bs > 0 && Readable(kept, regions, bs) && Narrow(kept.runs) && BlocksFit(kept.runs)
    requires |b.data| <= Bytes(Prefix(kept.runs, |kept.runs|), bs)
    requires Ext4Image.AllBacked(items) && HoldsFile(items, kept, regions, bs, b)
    requires ImageWrites.WellPlaced(heads + Ext4Image.ItemWrites(items, bs), bs, len)
    ensures TreeReads(RootOf(kept.runs, LeafNumber(kept), regions),
                      ImageWrites.FlatImage(heads + Ext4Image.ItemWrites(items, bs), len), bs, b.data)
  {
    var image, runs := ImageWrites.FlatImage(heads + Ext4Image.ItemWrites(items, bs), len), kept.runs;
    var root := RootOf(runs, LeafNumber(kept), regions);
    TreeInImage(kept, regions, bs, items, heads, len);
    hide ReadTree, RootOf, SlotsOf, NoSlots, HoldsParts, ImageWrites.FlatImage, ImageWrites.WellPlaced, Ext4Image.AllBacked;
    hide Ext4Image.ItemWrites, Narrow, ShortRegions, Bytes, Prefix, BlocksFit, LeafNumber, LeafBlock, MaxEntries;
    hide TreeReadsByte, ReadsByte, PartWritten, ExtentsOf;
    forall k | 0 <= k < |runs|
      ensures PartWritten(image, runs, k, bs, b.data)
    {
      PartIsWritten(runs, k, bs, b, items, heads, len);
    }
    forall o | 0 <= o < |b.data|
      ensures TreeReadsByte(root, image, bs, o, b.data[o])
    {
      ReadBack(image, runs, bs, b.data, o);
      ReadsStored(root, image, bs, runs, regions - |runs|, b.data, o);
    }
  }

  // ----- when the regions hold the contents -----

  lemma {:induction false} NeverMore(gs: seq<Group>, runs: seq<Run>, blocks: nat)
    requires |runs| > 0 && AllPositive(runs) && AtBack(gs, runs[0]) && Total(runs) == blocks + 1
    ensures Prefix(Keep(gs, runs).runs, |Keep(gs, runs).runs|) <= blocks
  {
    var kept := Keep(gs, runs).runs;
    TotalKept(gs, runs);
    TotalAtLeast(runs);
    PrefixIsTotal(kept, 0);
    assert kept[0..] == kept;
    hide Keep, Total, Prefix, AllPositive;
  }

  lemma {:induction false} BytesCompare(n: nat, bs: nat, blocks: nat, p: nat)
    requires bs > 0 && n > 0 && blocks == DivRoundUp(n, bs) && p <= blocks
    ensures n <= Bytes(p, bs) <==> p == blocks
  {
    DivRoundUpBounds(n, bs);
    MulGap(p, blocks, bs);
    hide DivRoundUp;
  }

  /** The regions of a file hold all its bytes if and only if the first region of its allocation has two blocks or
      more. */
  lemma {:induction false} FullFileFits(gs: seq<Group>, bs: nat, n: nat)
    requires bs > 0 && 0 < n && DivRoundUp(n, bs) < 0xFFFF_FFFF && AllocatorSpec.DoAllocate(gs, DivRoundUp(n, bs) + 1).Done?
    ensures var runs, kept := AllocatorSpec.DoAllocate(gs, DivRoundUp(n, bs) + 1).runs, KeptFor(gs, DivRoundUp(n, bs)).runs;
            runs != [] && (n <= Bytes(Prefix(kept, |kept|), bs) <==> runs[0].len >= 2)
  {
    var blocks := DivRoundUp(n, bs);
    var o := AllocatorSpec.DoAllocate(gs, blocks + 1);
    DivRoundUpBounds(n, bs);
    KeptFacts(gs, blocks);
    assert blocks > 0;
    KeptTotal(o.groups, o.runs, blocks);
    NeverMore(o.groups, o.runs, blocks);
    BytesCompare(n, bs, blocks, Prefix(KeptFor(gs, blocks).runs, |KeptFor(gs, blocks).runs|));
    hide *;
  }

  lemma {:induction false} SuffixDisjoint(live: seq<Run>, runs: seq<Run>)
    requires AllDisjoint(live + runs)
    ensures AllDisjoint(runs)
  {
    hide Disjoint;
    forall i, j | 0 <= i < j < |runs|
      ensures Disjoint(runs[i], runs[j])
    {
      assert (live + runs)[|live| + i] == runs[i] && (live + runs)[|live| + j] == runs[j];
    }
  }

  /** In every safe state the file's blocks, as stored, lie in pairwise different blocks of the device. */
  lemma {:induction false} FileBlocksDistinct(gs: seq<Group>, live: seq<Run>, shapes: seq<Shape>, blocks: nat, fb: nat, gb: nat)
    requires Safe(gs, live, shapes) && 0 < blocks < 0xFFFF_FFFF && AllocatorSpec.DoAllocate(gs, blocks + 1).Done?
    requires Narrow(KeptFor(gs, blocks).runs)
    requires AllocatorSpec.DoAllocate(gs, blocks + 1).runs != [] && AllocatorSpec.DoAllocate(gs, blocks + 1).runs[0].len >= 2
    requires fb < gb < blocks && ShortRegions(KeptFor(gs, blocks).runs, INIT_MAX_LEN)
    ensures var slots := SlotsOf(KeptFor(gs, blocks).runs, |KeptFor(gs, blocks).runs|);
            0 <= SlotLookup(slots, fb, INIT_MAX_LEN) != SlotLookup(slots, gb, INIT_MAX_LEN)
  {
    hide *;
    var done := AllocatorSpec.DoAllocate(gs, blocks + 1);
    AllocateSafe(gs, live, shapes, blocks + 1);
    KeptFacts(gs, blocks);
    KeptTotal(done.groups, done.runs, blocks);
    SafeIsDisjoint(done.groups, live + done.runs, shapes);
    SuffixDisjoint(live, done.runs);
    KeptDisjoint(done.groups, done.runs);
    StoredDistinct(KeptFor(gs, blocks).runs, fb, gb);
  }

  lemma {:induction false} StoredDistinct(runs: seq<Run>, fb: nat, gb: nat)
    requires AllDisjoint(runs) && Narrow(runs) && ShortRegions(runs, INIT_MAX_LEN) && fb < gb < Prefix(runs, |runs|)
    ensures var slots := SlotsOf(runs, |runs|);
            0 <= SlotLookup(slots, fb, INIT_MAX_LEN) != SlotLookup(slots, gb, INIT_MAX_LEN)
  {
    assert INIT_MAX_LEN == 0x8000;
    hide *;
    DistinctBlocks(runs, fb, gb);
    ShortExact(runs, |runs|, fb, 0x8000);
    ShortExact(runs, |runs|, gb, 0x8000);
  }

  lemma SafeIsDisjoint(gs: seq<Group>, live: seq<Run>, shapes: seq<Shape>)
    requires Safe(gs, live, shapes)
    ensures AllDisjoint(live)
  {}
}
