/** Files mapped by extents: the table, the chunks queued for the image, and the way back from the image. */
module Extents {
  import opened Words
  import opened AllocatorSpec
  import opened AllocatorRuns
  import opened Regions
  import opened BlockGroups
  import opened Allocators
  import opened ExtentsSpec
  import opened ExtentTree
  import opened WriteQueue

  /** The table as far as it is filled. */
  ghost predicate Filled(table: array<Slot>, runs: seq<Run>, k: nat)
    reads table
  {
    k <= |runs| && k <= table.Length && forall i :: 0 <= i < k ==> table[i] == SlotOf(ExtentAt(runs, i))
  }

  /** The extent loop of do_inode_allocate_extents; overflow reports an entry behind the end of the table. */
  method FillTable(list: RegionList, table: array<Slot>) returns (written: nat, overflow: bool)
    requires list.Chained() && list.ReadsAt(0) && list.partialIter == 0
    requires Prefix(RunsOf(list.nodes), |RunsOf(list.nodes)|) < 0x1_0000_0000
    modifies list`iter, list`partialIter, table
    ensures overflow <==> |RunsOf(list.nodes)| > table.Length
    ensures !overflow ==> written == |RunsOf(list.nodes)| && Filled(table, RunsOf(list.nodes), written)
    ensures list.Chained() && list.nodes == old(list.nodes)
  {
    hide *;
    ghost var runs := RunsOf(list.nodes);
    var fileBlock: int := 0;
    written := 0;
    NothingFilled(table, runs);
    while list.iter != null
      invariant list.Chained() && list.ReadsAt(written) && list.partialIter == 0 && written <= |runs|
      invariant fileBlock == Prefix(runs, written) && Filled(table, runs, written)
      decreases |runs| - written
    {
      MoreToRead(list, written);
      FilledFits(table, runs, written);
      if written == table.Length {
        return written, true;
      }
      var block, len := list.GetRegion(written);
      PrefixMore(runs, written);
      Store(table, fileBlock, block, len, written, runs);
      fileBlock := fileBlock + len;
      list.GetNextRegion(written);
      written := written + 1;
    }
    AllRead(list, written);
    FilledFits(table, runs, written);
    overflow := false;
  }

  lemma NothingFilled(table: array<Slot>, runs: seq<Run>)
    ensures Filled(table, runs, 0) && Prefix(runs, 0) == 0
  {}

  lemma FilledFits(table: array<Slot>, runs: seq<Run>, k: nat)
    requires Filled(table, runs, k)
    ensures k <= table.Length
  {}

  lemma MoreToRead(list: RegionList, at: nat)
    requires list.ReadsAt(at) && list.iter != null
    ensures at < |list.nodes| == |RunsOf(list.nodes)|
  {}

  lemma AllRead(list: RegionList, at: nat)
    requires list.ReadsAt(at) && list.iter == null
    ensures at == |list.nodes| == |RunsOf(list.nodes)|
  {}

  lemma PrefixMore(runs: seq<Run>, k: nat)
    requires k < |runs|
    ensures Prefix(runs, k + 1) == Prefix(runs, k) + runs[k].len <= Prefix(runs, |runs|)
  {
    PrefixGrows(runs, k + 1, |runs|);
  }

  /** One extent, with its fields cut to their widths. */
  method Store(table: array<Slot>, fileBlock: nat, block: u32, len: u32, k: nat, ghost runs: seq<Run>)
    requires k < |runs| && k < table.Length && Filled(table, runs, k)
    requires fileBlock == Prefix(runs, k) < 0x1_0000_0000 && block == runs[k].block && len == runs[k].len
    modifies table
    ensures Filled(table, runs, k + 1)
  {
    hide Prefix;
    table[k] := Slot(fileBlock, len % 0x1_0000, 0, block);
  }

  // ----- the chunks -----

  /** Where the contents of a file come from: a buffer, or a file on disk. */
  datatype Backing = Buffer(data: seq<byte>) | OnDisk(data: seq<byte>)

  function PartSource(b: Backing, from: nat, len: nat): Source
    requires from + len <= |b.data|
  {
    if b.Buffer? then Memory(b.data[from..from + len]) else FileChunk(b.data, from, len)
  }

  /** The chunk of region k. */
  function PartItem(runs: seq<Run>, k: nat, bs: nat, b: Backing): Item
    requires k < |runs| && runs[k].block < TWO32
  {
    CapGrows(runs, k, bs, |b.data|);
    var from := Cap(runs, k, bs, |b.data|);
    Item(runs[k].block, PartSource(b, from, Cap(runs, k + 1, bs, |b.data|) - from))
  }

  ghost predicate BlocksFit(runs: seq<Run>) {
    forall i :: 0 <= i < |runs| ==> runs[i].block < 0x1_0000_0000
  }

  /** The queue after the chunks of the regions in front of k. */
  function Queued(items: seq<Item>, runs: seq<Run>, k: nat, bs: nat, b: Backing): seq<Item>
    requires k <= |runs| && BlocksFit(runs)
  {
    if k == 0 then items
    else
      var before := Queued(items, runs, k - 1, bs, b);
      if Cap(runs, k - 1, bs, |b.data|) < |b.data| then WriteQueue.Insert(before, PartItem(runs, k - 1, bs, b)) else before
  }

  lemma {:induction false} QueuedMore(items: seq<Item>, runs: seq<Run>, k: nat, bs: nat, b: Backing)
    requires k < |runs| && BlocksFit(runs)
    ensures Queued(items, runs, k + 1, bs, b)
         == if Cap(runs, k, bs, |b.data|) < |b.data|
            then WriteQueue.Insert(Queued(items, runs, k, bs, b), PartItem(runs, k, bs, b))
            else Queued(items, runs, k, bs, b)
  {}

  lemma {:induction false} NothingMore(items: seq<Item>, runs: seq<Run>, k: nat, bs: nat, b: Backing)
    requires k <= |runs| && BlocksFit(runs) && Cap(runs, k, bs, |b.data|) == |b.data|
    ensures Queued(items, runs, |runs|, bs, b) == Queued(items, runs, k, bs, b)
    decreases |runs| - k
  {
    hide *;
    if k < |runs| {
      CapGrows(runs, k, bs, |b.data|);
      QueuedMore(items, runs, k, bs, b);
      NothingMore(items, runs, k + 1, bs, b);
    }
  }

  /** Every chunk ends up in the queue. */
  lemma {:induction false} PartQueued(items: seq<Item>, runs: seq<Run>, k: nat, bs: nat, b: Backing, i: nat)
    requires i < k <= |runs| && BlocksFit(runs) && Cap(runs, i, bs, |b.data|) < |b.data| && runs[i].block < TWO32
    ensures PartItem(runs, i, bs, b) in Queued(items, runs, k, bs, b)
  {
    hide *;
    BlockFits(runs, k - 1);
    QueuedMore(items, runs, k - 1, bs, b);
    if i < k - 1 {
      PartQueued(items, runs, k - 1, bs, b, i);
    }
    InsertKeeps(Queued(items, runs, k - 1, bs, b), PartItem(runs, k - 1, bs, b));
  }

  lemma BlockFits(runs: seq<Run>, k: nat)
    requires BlocksFit(runs) && k < |runs|
    ensures runs[k].block < TWO32
  {}

  lemma {:induction false} InsertKeeps(items: seq<Item>, x: Item)
    ensures x in WriteQueue.Insert(items, x) && forall y :: y in items ==> y in WriteQueue.Insert(items, x)
  {
    var r := WriteQueue.Insert(items, x);
    hide WriteQueue.Insert;
    assert x in multiset(r);
    forall y | y in items
      ensures y in r
    {
      assert y in multiset(items) && y in multiset(r);
    }
  }

  /** extent_create_backing and extent_create_backing_file: one chunk a region; crash reports the null region the
      loop reads when the list is too short. */
  method CreateBacking(list: RegionList, q: Queue, bs: u32, b: Backing) returns (crash: bool)
    requires list.Chained() && list.ReadsAt(0) && list.partialIter == 0 && q.Valid()
    requires BlocksFit(RunsOf(list.nodes)) && LengthsFit(RunsOf(list.nodes), bs)
    modifies list`iter, list`partialIter, q, q.nodes
    ensures q.Valid() && (crash <==> |b.data| > Bytes(Prefix(RunsOf(list.nodes), |RunsOf(list.nodes)|), bs))
    ensures var runs := RunsOf(list.nodes); !crash ==> q.Items() == Queued(old(q.Items()), runs, |runs|, bs, b)
    ensures forall n :: n in q.nodes ==> n in old(q.nodes) || fresh(n)
  {
    hide *;
    ghost var runs, items := RunsOf(list.nodes), q.Items();
    var offset: int, k: nat, backingLen: int := 0, 0, |b.data|;
    NothingQueued(items, runs, bs, b);
    while backingLen > 0
      invariant list.Chained() && list.ReadsAt(k) && list.partialIter == 0 && k <= |runs| && q.Valid()
      invariant offset == Cap(runs, k, bs, |b.data|) && backingLen == |b.data| - offset
      invariant q.Items() == Queued(items, runs, k, bs, b)
      invariant forall i :: 0 <= i < |q.nodes| ==> fresh(q.nodes[i]) || q.nodes[i] in old(q.nodes)
      decreases |runs| - k
    {
      if list.iter == null {
        AllRead(list, k);
        TooShort(runs, bs, |b.data|);
        return true;
      }
      MoreToRead(list, k);
      var block, regionLen := list.GetRegion(k);
      Fits(runs, k, bs);
      CapNext(runs, k, bs, |b.data|);
      QueuedMore(items, runs, k, bs, b);
      var len := if regionLen * bs < backingLen then regionLen * bs else backingLen;
      ItemOf(runs, k, bs, b, offset, len);
      QueuePart(q, b, offset, len, block);
      offset, backingLen := offset + len, backingLen - len;
      list.GetNextRegion(k);
      k := k + 1;
    }
    LongEnough(runs, k, bs, |b.data|);
    NothingMore(items, runs, k, bs, b);
    crash := false;
  }

  lemma NothingQueued(items: seq<Item>, runs: seq<Run>, bs: nat, b: Backing)
    requires BlocksFit(runs)
    ensures Cap(runs, 0, bs, |b.data|) == 0 && Queued(items, runs, 0, bs, b) == items
  {}

  lemma TooShort(runs: seq<Run>, bs: nat, n: nat)
    ensures Cap(runs, |runs|, bs, n) < n <==> n > Bytes(Prefix(runs, |runs|), bs)
  {}

  lemma LongEnough(runs: seq<Run>, k: nat, bs: nat, n: nat)
    requires k <= |runs| && Cap(runs, k, bs, n) == n
    ensures n <= Bytes(Prefix(runs, |runs|), bs)
  {
    PrefixGrows(runs, k, |runs|);
    MulGap(Prefix(runs, k), Prefix(runs, |runs|), bs);
  }

  lemma Fits(runs: seq<Run>, k: nat, bs: nat)
    requires LengthsFit(runs, bs) && k < |runs|
    ensures 0 <= runs[k].len * bs == Bytes(runs[k].len, bs) < 0x1_0000_0000
  {}

  lemma CapNext(runs: seq<Run>, k: nat, bs: nat, n: nat)
    requires k < |runs| && Cap(runs, k, bs, n) < n
    ensures var c, m := Cap(runs, k, bs, n), Bytes(runs[k].len, bs);
            Cap(runs, k + 1, bs, n) == c + (if m < n - c then m else n - c)
  {
    CapGrows(runs, k, bs, n);
    hide Cap, Bytes;
  }

  lemma ItemOf(runs: seq<Run>, k: nat, bs: nat, b: Backing, offset: nat, len: nat)
    requires k < |runs| && BlocksFit(runs)
    requires offset == Cap(runs, k, bs, |b.data|) && offset + len == Cap(runs, k + 1, bs, |b.data|)
    ensures offset + len <= |b.data| && runs[k].block < TWO32
    ensures PartItem(runs, k, bs, b) == Item(runs[k].block, PartSource(b, offset, len))
  {}

  /** queue_data_block for a buffer, queue_data_file for a file. */
  method QueuePart(q: Queue, b: Backing, offset: nat, len: nat, block: u32)
    requires q.Valid() && offset + len <= |b.data|
    modifies q, q.nodes
    ensures q.Valid() && q.Items() == WriteQueue.Insert(old(q.Items()), Item(block, PartSource(b, offset, len)))
    ensures forall i :: 0 <= i < |q.nodes| ==> fresh(q.nodes[i]) || q.nodes[i] in old(q.nodes)
  {
    hide Queue.Valid, Queue.Items, WriteQueue.Insert;
    match b
    case Buffer(data) => q.QueueDataBlock(data[offset..offset + len], block);
    case OnDisk(file) => q.QueueDataFile(file, offset, len, block);
  }

  /** No byte count of a region wraps. */
  ghost predicate LengthsFit(runs: seq<Run>, bs: nat) {
    forall i :: 0 <= i < |runs| ==> Bytes(runs[i].len, bs) < 0x1_0000_0000
  }

  // ----- do_inode_allocate_extents -----

  datatype FileResult = Mapped | NoSpace | NeverEnds | TooManyRegions | Overflow

  /** The entries that fit: four in the inode, or as many as the extent block holds. */
  function Capacity(bs: nat, leaf: nat): nat {
    if leaf == 0 then 4 else MaxEntries(bs)
  }

  /** The capacity check as written: the division binds tighter than the subtraction. */
  predicate TooMany(bs: nat, regions: nat) { bs - 12 / 12 < regions }

  /** The extent block, 0 when the table is in the inode. */
  function LeafNumber(kept: Kept): nat { if kept.leaf < 0 then 0 else kept.leaf }

  /** What a file of that many blocks keeps of its allocation of one block more. */
  function KeptFor(gs: seq<Group>, blocks: nat): Kept
    requires AllocatorSpec.DoAllocate(gs, blocks + 1).Done?
  {
    FirstRunAtBack(gs, blocks + 1);
    var o := AllocatorSpec.DoAllocate(gs, blocks + 1);
    Keep(o.groups, o.runs)
  }

  function Ending(kept: Kept, regions: nat, bs: nat): FileResult {
    if LeafNumber(kept) != 0 && TooMany(bs, regions) then TooManyRegions
    else if |kept.runs| > Capacity(bs, LeafNumber(kept)) then Overflow
    else Mapped
  }

  /** How the mapping of a file of that many blocks ends. */
  function FileOutcome(gs: seq<Group>, blocks: nat, bs: nat): FileResult {
    var o := AllocatorSpec.DoAllocate(gs, blocks + 1);
    if o.Hang? then FileResult.NeverEnds
    else if o.Failed? then NoSpace
    else Ending(KeptFor(gs, blocks), |o.runs|, bs)
  }

  /** The half of do_inode_allocate_extents that settles which blocks are kept. */
  method SettleBlocks(a: Allocator, alloc: BlockAllocation, regions: nat, ghost runs: seq<Run>) returns (leaf: u32)
    requires regions == |runs|
    requires a.Valid() && Fresh(alloc, runs) && runs != [] && AtBack(a.View(), runs[0])
    requires AllPositive(runs) && NoWrap(runs)
    modifies a.Repr(), alloc.list, alloc.list.nodes, alloc.oobList, alloc.oobList.nodes
    ensures a.Valid()
    ensures var kept := Keep(old(a.View()), runs);
            && a.View() == kept.groups && leaf == LeafNumber(kept)
            && alloc.list.Chained() && RunsOf(alloc.list.nodes) == kept.runs
  {
    hide Allocator.Valid, Allocator.View, Keep, LeafNumber, Fresh, AllPositive, NoWrap, Reduce, RunsOf, AtBack;
    hide RegionList.Chained, BlockAllocation.Shows, BackLinked, PrevOk;
    if regions <= 3 {
      KeepFew(a.View(), runs);
      FewKept(a.View(), runs);
      var crash := a.ReduceAllocation(alloc, 1, runs);
      FreshShows(alloc, Keep(old(a.View()), runs).runs);
      ShowsChained(alloc, Lists(Keep(old(a.View()), runs).runs, 0, 0, []));
      leaf := 0;
    } else {
      KeepMany(a.View(), runs);
      leaf := SetAside(alloc, runs, a.View());
    }
  }

  /** reserve_oob_blocks for the extent block, and its number. */
  method SetAside(alloc: BlockAllocation, ghost runs: seq<Run>, ghost gs: seq<Group>) returns (leaf: u32)
    requires Fresh(alloc, runs) && |runs| > 3 && AtBack(gs, runs[0]) && AllPositive(runs) && NoWrap(runs)
    modifies alloc.list, alloc.list.nodes, alloc.oobList, alloc.oobList.nodes
    ensures leaf == LeafNumber(Keep(gs, runs))
    ensures alloc.list.Chained() && RunsOf(alloc.list.nodes) == Keep(gs, runs).runs
  {
    hide *;
    ghost var l := Lists(runs, 0, 0, []);
    FreshShows(alloc, runs);
    ReserveReady(alloc, runs);
    KeepMany(gs, runs);
    ReserveFirst(runs, gs);
    var ok := alloc.ReserveOobBlocks(1, l);
    OobReads(alloc, Reserve(l, 1).0);
    ShowsChained(alloc, Reserve(l, 1).0);
    leaf := alloc.oobList.GetBlock(0, 0);
  }

  lemma ReserveReady(alloc: BlockAllocation, runs: seq<Run>)
    requires alloc.Shows(Lists(runs, 0, 0, [])) && BackLinked(alloc.list.nodes) && PrevOk(alloc.list.nodes, 0)
    requires |runs| > 3 && AllPositive(runs) && NoWrap(runs)
    ensures alloc.Ready(Lists(runs, 0, 0, []), 1)
  {
    SplitFront(runs);
    hide Split, NoWrap, RunsOf;
  }

  /** The extent block is the first block set aside. */
  lemma {:induction false} ReserveFirst(runs: seq<Run>, gs: seq<Group>)
    requires |runs| > 3 && AllPositive(runs) && AtBack(gs, runs[0]) && NoWrap(runs)
    ensures var l := Reserve(Lists(runs, 0, 0, []), 1).0;
            && Keep(gs, runs).runs == l.runs && NoWrap(l.oob) && l.oob != []
            && Regions.Lookup(l.oob, 0, 0) == LeafNumber(Keep(gs, runs))
  {
    SplitFront(runs);
    var r := if runs[0].len > 1 then runs[0] else runs[1];
    assert r.len > 0;
    if runs[0].len > 1 {
      CutFront(runs);
    }
    KeepMany(gs, runs);
    hide Split, Cut, Walk, AtBack;
    var l := Reserve(Lists(runs, 0, 0, []), 1).0;
    assert l.oob == if runs[0].len > 1 then [Front(runs[0], 1)] else runs[1..];
  }

  lemma OobReads(alloc: BlockAllocation, l: Lists)
    requires alloc.Shows(l) && l.oob != []
    ensures alloc.oobList.Chained() && alloc.oobList.ReadsAt(0) && RunsOf(alloc.oobList.nodes) == l.oob
    ensures alloc.oobList.partialIter == 0
  {
    hide Linked;
  }

  lemma ShowsChained(alloc: BlockAllocation, l: Lists)
    requires alloc.Shows(l)
    ensures alloc.list.Chained() && RunsOf(alloc.list.nodes) == l.runs && |alloc.list.nodes| == |l.runs|
  {}

  lemma FewKept(gs: seq<Group>, runs: seq<Run>)
    requires 0 < |runs| <= 3 && AtBack(gs, runs[0]) && Reduce(gs, runs, 1).Next?
    ensures Keep(gs, runs) == Kept(Reduce(gs, runs, 1).state.groups, Reduce(gs, runs, 1).state.live, -1)
    ensures LeafNumber(Keep(gs, runs)) == 0
  {}

  /** The table of do_inode_allocate_extents, in the inode or in the extent block. */
  method MapBlocks(alloc: BlockAllocation, leaf: u32, regions: nat, bs: u32, ghost kept: Kept)
    returns (result: FileResult, table: array<Slot>, count: nat)
    requires alloc.list.Chained() && RunsOf(alloc.list.nodes) == kept.runs && leaf == LeafNumber(kept)
    requires Prefix(kept.runs, |kept.runs|) < 0x1_0000_0000
    modifies alloc.list`iter, alloc.list`partialIter
    ensures result == Ending(kept, regions, bs) && alloc.list.Chained() && alloc.list.nodes == old(alloc.list.nodes)
    ensures result == Mapped ==>
              fresh(table) && count == |kept.runs| && Filled(table, kept.runs, count)
              && alloc.list.ReadsAt(0) && alloc.list.partialIter == 0
  {
    hide *;
    EndingIs(kept, regions, bs);
    if leaf != 0 && TooMany(bs, regions) {
      table := new Slot[0];
      return TooManyRegions, table, 0;
    }
    table := new Slot[Capacity(bs, leaf)];
    alloc.list.Rewind();
    var overflow;
    count, overflow := FillTable(alloc.list, table);
    if overflow {
      return Overflow, table, 0;
    }
    alloc.list.Rewind();
    result := Mapped;
  }

  lemma EndingIs(kept: Kept, regions: nat, bs: nat)
    ensures var leaf := LeafNumber(kept);
            && (leaf != 0 && TooMany(bs, regions) ==> Ending(kept, regions, bs) == TooManyRegions)
            && (!(leaf != 0 && TooMany(bs, regions)) ==>
                  Ending(kept, regions, bs) == if |kept.runs| > Capacity(bs, leaf) then Overflow else Mapped)
  {}

  /** The queue with the extent block in it, if there is one. */
  function WithLeaf(items: seq<Item>, leaf: u32, runs: seq<Run>, regions: nat, bs: nat): seq<Item> {
    if leaf == 0 then items else WriteQueue.Insert(items, Item(leaf, Memory(LeafBlock(runs, regions, bs))))
  }

  lemma {:induction false} FilledSlots(table: array<Slot>, runs: seq<Run>)
    requires Filled(table, runs, |runs|)
    ensures |runs| <= table.Length && table[..|runs|] == SlotsOf(runs, |runs|)
  {
    forall i | 0 <= i < |runs|
      ensures table[i] == SlotsOf(runs, |runs|)[i]
    {
      SlotsAt(runs, |runs|, i);
    }
    hide SlotOf, ExtentAt;
  }

  lemma TreeIs(runs: seq<Run>, leaf: u32, regions: nat, bs: nat)
    ensures leaf == 0 ==> RootOf(runs, leaf, regions) == ExtentNode(regions % 0x1_0000, 3, SlotsOf(runs, |runs|), 60)
    ensures leaf != 0 ==>
              RootOf(runs, leaf, regions) == Node(Head(EXT_MAGIC, 1, 3, 1, 0), EncodeIndex(ExtentTree.Index(0, leaf, 0, 0)), 60)
    ensures LeafBlock(runs, regions, bs) == ExtentNode(regions % 0x1_0000, MaxEntries(bs) % 0x1_0000, SlotsOf(runs, |runs|), bs)
  {
    hide ExtentNode, Node, EncodeIndex, SlotsOf, MaxEntries;
  }

  lemma WithLeafIs(items: seq<Item>, leaf: u32, runs: seq<Run>, regions: nat, bs: nat)
    ensures leaf == 0 ==> WithLeaf(items, leaf, runs, regions, bs) == items
    ensures leaf != 0 ==>
              WithLeaf(items, leaf, runs, regions, bs)
              == WriteQueue.Insert(items, Item(leaf, Memory(LeafBlock(runs, regions, bs))))
  {
    hide LeafBlock, WriteQueue.Insert;
  }

  /** The headers and the extents as bytes: in i_block, or in an extent block that i_block points at. The source queues
      the buffer of that block and fills it in afterwards; the queue holds what the buffer ends with. */
  method StoreTree(q: Queue, table: array<Slot>, leaf: u32, count: nat, regions: nat, bs: u32, ghost runs: seq<Run>)
    returns (root: seq<byte>)
    requires q.Valid() && count == |runs| && Filled(table, runs, count)
    modifies q, q.nodes
    ensures q.Valid() && root == RootOf(runs, leaf, regions)
    ensures q.Items() == WithLeaf(old(q.Items()), leaf, runs, regions, bs)
    ensures forall n :: n in q.nodes ==> n in old(q.nodes) || fresh(n)
  {
    FilledSlots(table, runs);
    hide *;
    TreeIs(runs, leaf, regions, bs);
    WithLeafIs(q.Items(), leaf, runs, regions, bs);
    var slots := table[..count];
    if leaf == 0 {
      root := ExtentNode(regions % 0x1_0000, 3, slots, 60);
    } else {
      root := Node(Head(EXT_MAGIC, 1, 3, 1, 0), EncodeIndex(ExtentTree.Index(0, leaf, 0, 0)), 60);
      q.QueueDataBlock(ExtentNode(regions % 0x1_0000, MaxEntries(bs) % 0x1_0000, slots, bs), leaf);
    }
  }

  /** do_inode_allocate_extents */
  method DoInodeAllocateExtents(a: Allocator, q: Queue, bs: u32, len: nat)
    returns (result: FileResult, alloc: BlockAllocation?, root: seq<byte>)
    requires a.Valid() && q.Valid() && bs > 0 && DivRoundUp(len, bs) < 0xFFFF_FFFF
    modifies a.Repr(), q, q.nodes
    ensures a.Valid() && q.Valid() && result == FileOutcome(old(a.View()), DivRoundUp(len, bs), bs)
    ensures result == Mapped ==>
              alloc != null && fresh(alloc.list) && AllocatorSpec.DoAllocate(old(a.View()), DivRoundUp(len, bs) + 1).Done?
              && MappedFor(old(a.View()), DivRoundUp(len, bs), a.View(), alloc, root)
              && LeafFor(old(a.View()), DivRoundUp(len, bs), bs, old(q.Items()), q.Items())
    ensures forall n :: n in q.nodes ==> n in old(q.nodes) || fresh(n)
  {
    hide Allocator.Valid, Allocator.View, AllocatorSpec.DoAllocate, DivRoundUp, FileOutcome, KeptFor, Usable, Tabled, Ending;
    hide Queue.Valid, Queue.Items, MappedFor, LeafFor, Filled;
    ghost var gs := a.View();
    var blocks := DivRoundUp(len, bs);
    ghost var o := AllocatorSpec.DoAllocate(gs, blocks + 1);
    ghost var kept := if o.Done? then KeptFor(gs, blocks) else Kept(gs, [], -1);
    OutcomeIs(gs, blocks, bs);
    UsableKept(a, blocks, kept);
    var table, leaf, count, regions;
    result, alloc, table, leaf, count, regions := AllocateAndMap(a, bs, blocks, o, kept);
    root := [];
    if result == Mapped {
      root := StoreMapped(gs, blocks, a.View(), alloc, table, leaf, count, regions, bs, q, kept);
    }
  }

  method StoreMapped(ghost gs: seq<Group>, ghost blocks: nat, ghost after: seq<Group>, alloc: BlockAllocation,
                     table: array<Slot>, leaf: u32, count: nat, regions: nat, bs: u32, q: Queue, ghost kept: Kept)
    returns (root: seq<byte>)
    requires q.Valid() && Tabled(kept, after, alloc, table, leaf, count) && AllocatorSpec.DoAllocate(gs, blocks + 1).Done?
    requires kept == KeptFor(gs, blocks) && regions == |AllocatorSpec.DoAllocate(gs, blocks + 1).runs|
    modifies q, q.nodes
    ensures q.Valid() && MappedFor(gs, blocks, after, alloc, root)
    ensures LeafFor(gs, blocks, bs, old(q.Items()), q.Items())
    ensures forall n :: n in q.nodes ==> n in old(q.nodes) || fresh(n)
  {
    hide *;
    TabledParts(kept, after, alloc, table, leaf, count);
    ghost var items := q.Items();
    root := StoreTree(q, table, leaf, count, regions, bs, kept.runs);
    MappedIs(gs, blocks, after, alloc, root, kept, leaf);
    LeafIs(gs, blocks, bs, items, q.Items(), kept, leaf);
  }

  /** The regions of a file and the queue, before its chunks: the extent block has joined it. */
  ghost predicate LeafFor(gs: seq<Group>, blocks: nat, bs: nat, before: seq<Item>, items: seq<Item>) {
    var o := AllocatorSpec.DoAllocate(gs, blocks + 1);
    o.Done? && LeafNumber(KeptFor(gs, blocks)) < 0x1_0000_0000
    && items == WithLeaf(before, LeafNumber(KeptFor(gs, blocks)), KeptFor(gs, blocks).runs, |o.runs|, bs)
  }

  /** The allocation holds the kept regions, and i_block the root of their tree. */
  ghost predicate MappedFor(gs: seq<Group>, blocks: nat, after: seq<Group>, alloc: BlockAllocation, root: seq<byte>)
    reads alloc, alloc.list, alloc.list.nodes
  {
    var o := AllocatorSpec.DoAllocate(gs, blocks + 1);
    o.Done? && LeafNumber(KeptFor(gs, blocks)) < 0x1_0000_0000
    && root == RootOf(KeptFor(gs, blocks).runs, LeafNumber(KeptFor(gs, blocks)), |o.runs|)
    && Holding(KeptFor(gs, blocks), after, alloc)
  }

  ghost predicate Holding(kept: Kept, after: seq<Group>, alloc: BlockAllocation)
    reads alloc, alloc.list, alloc.list.nodes
  {
    && after == kept.groups && RunsOf(alloc.list.nodes) == kept.runs
    && alloc.list.Chained() && alloc.list.ReadsAt(0) && alloc.list.partialIter == 0
  }

  lemma TabledParts(kept: Kept, after: seq<Group>, alloc: BlockAllocation, table: array<Slot>, leaf: nat, count: nat)
    requires Tabled(kept, after, alloc, table, leaf, count)
    ensures count == |kept.runs| && Filled(table, kept.runs, count) && leaf == LeafNumber(kept)
    ensures Holding(kept, after, alloc)
  {
    hide Filled, RunsOf;
  }

  lemma MappedIs(gs: seq<Group>, blocks: nat, after: seq<Group>, alloc: BlockAllocation, root: seq<byte>, kept: Kept, leaf: u32)
    requires AllocatorSpec.DoAllocate(gs, blocks + 1).Done? && kept == KeptFor(gs, blocks) && leaf == LeafNumber(kept)
    requires Holding(kept, after, alloc) && root == RootOf(kept.runs, leaf, |AllocatorSpec.DoAllocate(gs, blocks + 1).runs|)
    ensures MappedFor(gs, blocks, after, alloc, root)
  {
    hide AllocatorSpec.DoAllocate, KeptFor, LeafNumber, RootOf, Holding;
  }

  lemma LeafIs(gs: seq<Group>, blocks: nat, bs: nat, before: seq<Item>, items: seq<Item>, kept: Kept, leaf: u32)
    requires AllocatorSpec.DoAllocate(gs, blocks + 1).Done? && kept == KeptFor(gs, blocks) && leaf == LeafNumber(kept)
    requires items == WithLeaf(before, leaf, kept.runs, |AllocatorSpec.DoAllocate(gs, blocks + 1).runs|, bs)
    ensures LeafFor(gs, blocks, bs, before, items)
  {
    hide AllocatorSpec.DoAllocate, KeptFor, LeafNumber, WithLeaf;
  }

  /** What is known of a fresh allocation and what is kept of it. */
  ghost predicate Usable(o: Outcome, kept: Kept) {
    o.Done? ==>
      o.runs != [] && AtBack(o.groups, o.runs[0]) && AllPositive(o.runs) && NoWrap(o.runs)
      && kept == Keep(o.groups, o.runs) && Prefix(kept.runs, |kept.runs|) < 0x1_0000_0000
  }

  lemma UsableKept(a: Allocator, blocks: nat, kept: Kept)
    requires a.Valid() && blocks < 0xFFFF_FFFF
    requires AllocatorSpec.DoAllocate(a.View(), blocks + 1).Done? ==> kept == KeptFor(a.View(), blocks)
    ensures Usable(AllocatorSpec.DoAllocate(a.View(), blocks + 1), kept)
  {
    AllocationBounded(a, blocks + 1);
    if AllocatorSpec.DoAllocate(a.View(), blocks + 1).Done? {
      KeptFacts(a.View(), blocks);
    }
    hide AllocatorSpec.DoAllocate, KeptFor, AtBack, AllPositive, NoWrap, Keep, Prefix, Allocator.View, Total;
  }

  method AllocateAndMap(a: Allocator, bs: u32, blocks: u32, ghost o: Outcome, ghost kept: Kept)
    returns (result: FileResult, alloc: BlockAllocation?, table: array<Slot>, leaf: u32, count: nat, regions: nat)
    requires a.Valid() && blocks < 0xFFFF_FFFF && o == AllocatorSpec.DoAllocate(a.View(), blocks + 1) && Usable(o, kept)
    modifies a.Repr()
    ensures a.Valid()
    ensures result == if o.Hang? then FileResult.NeverEnds else if o.Failed? then NoSpace else Ending(kept, |o.runs|, bs)
    ensures result == Mapped ==>
              o.Done? && regions == |o.runs| && alloc != null && fresh(alloc.list) && fresh(table)
              && Tabled(kept, a.View(), alloc, table, leaf, count)
  {
    hide Allocator.Valid, Allocator.View, AllocatorSpec.DoAllocate, Fresh, Tabled, Ending;
    hide AtBack, AllPositive, NoWrap, Keep, Prefix;
    table, leaf, count, regions := new Slot[0], 0, 0, 0;
    var hang;
    alloc, hang := a.AllocateBlocks(blocks + 1);
    if alloc == null {
      result := if hang then FileResult.NeverEnds else NoSpace;
    } else {
      result, table, leaf, count, regions := MapAllocation(a, alloc, bs, o.runs, kept);
    }
  }

  lemma OutcomeIs(gs: seq<Group>, blocks: nat, bs: nat)
    ensures var o := AllocatorSpec.DoAllocate(gs, blocks + 1);
            && (o.Hang? ==> FileOutcome(gs, blocks, bs) == FileResult.NeverEnds)
            && (o.Failed? ==> FileOutcome(gs, blocks, bs) == NoSpace)
            && (o.Done? ==> FileOutcome(gs, blocks, bs) == Ending(KeptFor(gs, blocks), |o.runs|, bs))
  {
    hide AllocatorSpec.DoAllocate, Ending, KeptFor;
  }

  method MapAllocation(a: Allocator, alloc: BlockAllocation, bs: u32, ghost runs: seq<Run>, ghost kept: Kept)
    returns (result: FileResult, table: array<Slot>, leaf: u32, count: nat, regions: nat)
    requires a.Valid() && Fresh(alloc, runs) && runs != [] && AtBack(a.View(), runs[0]) && AllPositive(runs) && NoWrap(runs)
    requires kept == Keep(a.View(), runs) && Prefix(kept.runs, |kept.runs|) < 0x1_0000_0000
    modifies a.Repr(), alloc.list, alloc.list.nodes, alloc.oobList, alloc.oobList.nodes
    ensures a.Valid() && result == Ending(kept, |runs|, bs) && regions == |runs|
    ensures result == Mapped ==> fresh(table) && Tabled(kept, a.View(), alloc, table, leaf, count)
  {
    hide Allocator.Valid, Allocator.View, Fresh, RunsOf, Keep, Ending, NoWrap, LeafNumber, AllPositive, AtBack, Linked;
    hide RegionList.Chained, RegionList.ReadsAt, Filled, Prefix, BlockAllocation.Shows, BackLinked, PrevOk;
    FreshShows(alloc, runs);
    ShowsChained(alloc, Lists(runs, 0, 0, []));
    regions := alloc.list.NumRegions();
    leaf := SettleBlocks(a, alloc, regions, runs);
    result, table, count := MapBlocks(alloc, leaf, regions, bs, kept);
  }

  lemma {:induction false} KeptFacts(gs: seq<Group>, blocks: nat)
    requires blocks < 0xFFFF_FFFF && AllocatorSpec.DoAllocate(gs, blocks + 1).Done?
    ensures var o, kept := AllocatorSpec.DoAllocate(gs, blocks + 1), KeptFor(gs, blocks);
            && o.runs != [] && AtBack(o.groups, o.runs[0]) && AllPositive(o.runs) && kept == Keep(o.groups, o.runs)
            && Total(o.runs) == blocks + 1
            && Prefix(kept.runs, |kept.runs|) == Total(kept.runs) < 0x1_0000_0000
  {
    var o, kept := AllocatorSpec.DoAllocate(gs, blocks + 1), KeptFor(gs, blocks);
    FirstRunAtBack(gs, blocks + 1);
    AllocationPositive(gs, blocks + 1);
    AllocationTakes(gs, blocks + 1);
    TotalKept(o.groups, o.runs);
    PrefixIsTotal(kept.runs, 0);
    assert kept.runs[0..] == kept.runs;
    hide AllocatorSpec.DoAllocate, Keep, AtBack, AllPositive, Total, Prefix;
  }

  /** The allocation holds the kept regions, and the table their extents. */
  ghost predicate Tabled(kept: Kept, after: seq<Group>, alloc: BlockAllocation, table: array<Slot>, leaf: nat, count: nat)
    reads alloc, alloc.list, alloc.list.nodes, table
  {
    && leaf == LeafNumber(kept) && count == |kept.runs| && Filled(table, kept.runs, count)
    && after == kept.groups && RunsOf(alloc.list.nodes) == kept.runs
    && alloc.list.Chained() && alloc.list.ReadsAt(0) && alloc.list.partialIter == 0
  }
}
