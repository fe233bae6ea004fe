/** The resize inode in the image: its two tables are queued, and read back from block to block. */
module ResizeQueue {
  import opened Words
  import opened Geometry
  import opened AllocatorSpec
  import opened AllocatorRuns
  import opened BlockGroups
  import opened Allocators
  import opened AllocatorSafety
  import opened WriteQueue
  import opened QueueAreas
  import opened HeaderQueue
  import opened FileLayout
  import opened DeviceQueue
  import opened ImageEnd
  import opened Regions
  import opened Resize
  import Ext4Image
  import ImageWrites
  import FileReadBack
  import S = ExtentsSpec

  // ----- tables as bytes -----

  /** An array of __le32. */
  function TableBytes(table: seq<u32>): (b: seq<byte>)
    ensures |b| == 4 * |table|
  {
    if table == [] then [] else TableBytes(table[..|table| - 1]) + Le32(table[|table| - 1])
  }

  /** Entry k of an array of __le32 that begins at byte `at` of the image, or -1. */
  function EntryAt(image: seq<byte>, at: int, k: nat): int {
    if 0 <= at && at + 4 * k + 4 <= |image| then FromLe32(image[at + 4 * k..at + 4 * k + 4]) else -1
  }

  lemma {:induction false} TableEntry(table: seq<u32>, k: nat)
    requires k < |table|
    ensures TableBytes(table)[4 * k..4 * k + 4] == Le32(table[k])
  {
    if k < |table| - 1 {
      TableEntry(table[..|table| - 1], k);
    }
    hide Le32;
  }

  lemma {:induction false} EntryFound(image: seq<byte>, at: nat, table: seq<u32>, k: nat)
    requires k < |table| && at + 4 * |table| <= |image| && image[at..at + 4 * |table|] == TableBytes(table)
    ensures EntryAt(image, at, k) == table[k]
  {
    TableEntry(table, k);
    Le32RoundTrip(table[k]);
    hide TableBytes, Le32, FromLe32;
    SliceOfSlice(image, at, 4 * |table|, 4 * k, 4 * k + 4);
  }

  // ----- what the queue holds, and what the image gives back -----

  /** The double-indirect table is at block dind, its rows at the first reserved block of group 0. */
  datatype Tables = Tables(dind: u32, slots: seq<u32>, rows: seq<u32>)

  ghost predicate TablesFor(info: Info, aux: Aux, t: Tables) {
    var reserve, runs := aux.bgDescReserveBlocks, ReservedRuns(info, aux, aux.groups);
    && reserve > 0 && runs != []
    && |t.slots| == aux.blocksPerInd && |t.rows| == reserve * aux.blocksPerInd && reserve <= aux.blocksPerInd
    && TableDone(t.slots, runs, aux.bgDescBlocks, reserve, reserve)
    && RowsFound(t.slots, t.rows, runs[0].block, runs, reserve, aux.blocksPerInd)
  }

  ghost predicate TablesIn(items: seq<Item>, info: Info, aux: Aux, t: Tables) {
    var runs := ReservedRuns(info, aux, aux.groups);
    && runs != [] && runs[0].block < TWO32
    && Item(t.dind, Memory(TableBytes(t.slots))) in items && Item(runs[0].block, Memory(TableBytes(t.rows))) in items
  }

  /** The block that entry k of the double-indirect table names. */
  function SlotBlock(image: seq<byte>, dind: nat, bs: nat, k: nat): int {
    EntryAt(image, S.Bytes(dind, bs), k)
  }

  /** Entry k of the table at block dind is the rotated reserved block of group 0, and the entries of that block are the
      reserved blocks of the same number in the other superblock groups. */
  ghost predicate SlotReads(image: seq<byte>, info: Info, aux: Aux, dind: nat, k: nat)
    requires aux.bgDescReserveBlocks > 0 && k < aux.bgDescReserveBlocks
  {
    var runs, block := ReservedRuns(info, aux, aux.groups), SlotBlock(image, dind, info.blockSize, k);
    var r: nat := Rotated(k, aux.bgDescBlocks, aux.bgDescReserveBlocks);
    && runs != [] && block == runs[0].block + r
    && forall m :: 1 <= m < |runs| ==> EntryAt(image, block * info.blockSize, m - 1) == runs[m].block + r
  }

  ghost predicate ResizeReads(image: seq<byte>, info: Info, aux: Aux, dind: nat) {
    aux.bgDescReserveBlocks > 0
    && forall k: nat :: k < aux.bgDescReserveBlocks ==> SlotReads(image, info, aux, dind, k)
  }

  lemma {:induction false} RowPlace(first: nat, r: nat, m: nat, ind: nat, bs: nat)
    requires bs == 4 * ind && m >= 1
    ensures 0 <= r * ind && S.Bytes(first, bs) + 4 * (r * ind + m - 1) == (first + r) * bs + 4 * (m - 1)
  {
    MulNonNegative(r, ind);
    assert (first + r) * bs == first * bs + r * bs;
    assert r * bs == r * (4 * ind) == 4 * (r * ind);
  }

  lemma {:induction false} RowEntry(image: seq<byte>, info: Info, aux: Aux, t: Tables, k: nat, m: nat)
    requires TablesFor(info, aux, t) && k < aux.bgDescReserveBlocks && info.blockSize == 4 * aux.blocksPerInd
    requires var runs := ReservedRuns(info, aux, aux.groups);
             var at := S.Bytes(runs[0].block, info.blockSize);
             1 <= m < |runs| && at + 4 * |t.rows| <= |image| && image[at..at + 4 * |t.rows|] == TableBytes(t.rows)
    ensures var runs := ReservedRuns(info, aux, aux.groups);
            var r: nat := Rotated(k, aux.bgDescBlocks, aux.bgDescReserveBlocks);
            EntryAt(image, (runs[0].block + r) * info.blockSize, m - 1) == runs[m].block + r
  {
    var runs, reserve: nat, ind: nat := ReservedRuns(info, aux, aux.groups), aux.bgDescReserveBlocks, aux.blocksPerInd;
    var r: nat := Rotated(k, aux.bgDescBlocks, aux.bgDescReserveBlocks);
    assert RowFound(t.slots, t.rows, runs[0].block, runs, reserve, ind, k, m);
    assert t.slots[k] - runs[0].block == r;
    RowPlace(runs[0].block, r, m, ind, info.blockSize);
    EntryFound(image, S.Bytes(runs[0].block, info.blockSize), t.rows, RowSlot(r, m, ind));
    hide ReservedRuns, Rotated, TableDone, RowFound, RowsFound, TableBytes, S.Bytes, FromLe32;
  }

  /** With both tables in the image, the resize inode is read from block to block. */
  lemma {:induction false} ImageReads(image: seq<byte>, info: Info, aux: Aux, t: Tables)
    requires TablesFor(info, aux, t) && info.blockSize == 4 * aux.blocksPerInd
    requires var at := S.Bytes(t.dind, info.blockSize);
             at + 4 * |t.slots| <= |image| && image[at..at + 4 * |t.slots|] == TableBytes(t.slots)
    requires var runs := ReservedRuns(info, aux, aux.groups);
             var at := S.Bytes(runs[0].block, info.blockSize);
             at + 4 * |t.rows| <= |image| && image[at..at + 4 * |t.rows|] == TableBytes(t.rows)
    ensures ResizeReads(image, info, aux, t.dind)
  {
    var runs := ReservedRuns(info, aux, aux.groups);
    forall k: nat | k < aux.bgDescReserveBlocks
      ensures SlotReads(image, info, aux, t.dind, k)
    {
      EntryFound(image, S.Bytes(t.dind, info.blockSize), t.slots, k);
      hide ReservedRuns, Rotated, TableBytes, S.Bytes, FromLe32, RowsFound, EntryAt;
      assert SlotBlock(image, t.dind, info.blockSize, k) == t.slots[k];
      forall m | 1 <= m < |runs|
        ensures EntryAt(image, SlotBlock(image, t.dind, info.blockSize, k) * info.blockSize, m - 1)
             == runs[m].block + Rotated(k, aux.bgDescBlocks, aux.bgDescReserveBlocks)
      {
        RowEntry(image, info, aux, t, k, m);
      }
    }
  }

  /** The queued tables are read back from the image. */
  lemma {:induction false} QueuedReads(items: seq<Item>, info: Info, aux: Aux, t: Tables, heads: seq<ImageWrites.Write>,
                                       len: nat)
    requires TablesFor(info, aux, t) && TablesIn(items, info, aux, t) && info.blockSize == 4 * aux.blocksPerInd
    requires info.blockSize > 0 && Ext4Image.AllBacked(items)
    requires ImageWrites.WellPlaced(heads + Ext4Image.ItemWrites(items, info.blockSize), info.blockSize, len)
    ensures ResizeReads(ImageWrites.FlatImage(heads + Ext4Image.ItemWrites(items, info.blockSize), len), info, aux, t.dind)
  {
    var runs := ReservedRuns(info, aux, aux.groups);
    assert runs != [] && runs[0].block < TWO32;
    var x, y := Item(t.dind, Memory(TableBytes(t.slots))), Item(runs[0].block, Memory(TableBytes(t.rows)));
    assert x in items && y in items;
    hide *;
    FileReadBack.ItemAt(items, x, info.blockSize, heads, len);
    FileReadBack.ItemAt(items, y, info.blockSize, heads, len);
    ImageReads(ImageWrites.FlatImage(heads + Ext4Image.ItemWrites(items, info.blockSize), len), info, aux, t);
  }

  // ----- ext4_create_resize_inode -----

  /** The tables of the resize inode, from the reserved regions of the layout. */
  method ResizeTables(info: Info, aux: Aux) returns (outcome: ResizeOutcome, slots: seq<u32>, rows: seq<u32>, rowsAt: u32)
    requires Buildable(info, aux) && aux.groups > 0 && aux.bgDescReserveBlocks <= aux.blocksPerInd
    ensures var runs := ReservedRuns(info, aux, aux.groups);
            outcome == if aux.bgDescReserveBlocks == 0 then ResizeOutcome.Crash else if |runs| > aux.blocksPerInd + 1 then Overflow else Attached
    ensures outcome == Attached ==>
              && TablesFor(info, aux, Tables(0, slots, rows))
              && rowsAt as nat == ReservedRuns(info, aux, aux.groups)[0].block
  {
    FirstHeader(info, aux);
    BuildableParts(info, aux);
    hide *;
    var alloc := ReserveRegions(info, aux);
    ReservedList(alloc.list, info, aux);
    ghost var runs := ReservedRuns(info, aux, aux.groups);
    var table, found;
    outcome, table, found, rowsAt := AttachResize(alloc.list, aux.blocksPerInd, aux.bgDescBlocks, aux.bgDescReserveBlocks, runs);
    slots, rows := table[..], found[..];
    if outcome == Attached {
      TablesAre(info, aux, Tables(0, slots, rows), runs);
    }
  }

  lemma BuildableParts(info: Info, aux: Aux)
    requires Buildable(info, aux)
    ensures Sound(info, aux) && aux.lenBlocks + info.blocksPerGroup < TWO32
  {
    hide Sound;
  }

  lemma TablesAre(info: Info, aux: Aux, t: Tables, runs: seq<Run>)
    requires runs == ReservedRuns(info, aux, aux.groups) && runs != [] && aux.bgDescReserveBlocks > 0
    requires |t.slots| == aux.blocksPerInd && |t.rows| == aux.bgDescReserveBlocks * aux.blocksPerInd
    requires aux.bgDescReserveBlocks <= aux.blocksPerInd
    requires TableDone(t.slots, runs, aux.bgDescBlocks, aux.bgDescReserveBlocks, aux.bgDescReserveBlocks)
    requires RowsFound(t.slots, t.rows, runs[0].block, runs, aux.bgDescReserveBlocks, aux.blocksPerInd)
    ensures TablesFor(info, aux, t)
  {
    hide ReservedRuns, TableDone, RowsFound;
  }

  predicate OneBlockFree(gs: seq<Group>) { AllocatorSpec.DoAllocate(gs, 1).Done? }

  /** Creating the resize inode succeeds in this state: there are reserved blocks, a row holds an entry for every backup
      group, and a block is free for the double-indirect table. */
  ghost predicate ResizeWorks(info: Info, aux: Aux, gs: seq<Group>) {
    && aux.bgDescReserveBlocks > 0 && |ReservedRuns(info, aux, aux.groups)| <= aux.blocksPerInd + 1
    && OneBlockFree(gs)
  }

  lemma {:induction false} OneBlockTaken(gs: seq<Group>)
    requires OneBlockFree(gs)
    ensures var runs := AllocatorSpec.DoAllocate(gs, 1).runs; |runs| == 1 && runs[0].len == 1
  {
    if !Contiguous(gs, 1).Done? {
      SpillStep(gs, 1);
    }
    hide Spill;
  }

  /** A block allocated by itself, and a buffer of one block for it. */
  lemma {:induction false} BlockLaid(info: Info, aux: Aux, keys: seq<Key>, gs: seq<Group>, live: seq<Run>, items: seq<Item>,
                                     o: Outcome, data: seq<byte>)
    requires Buildable(info, aux) && Laid(info, aux, keys, gs, live, items) && o == AllocatorSpec.DoAllocate(gs, 1)
    requires OneBlockFree(gs) && |data| == info.blockSize && o.Done? && o.runs != []
    requires o.runs[0].block < 0x1_0000_0000
    ensures Laid(info, aux, keys, o.groups, live + o.runs, WriteQueue.Insert(items, Item(o.runs[0].block, Memory(data))))
  {
    OneBlockTaken(gs);
    assert TWO32 == 0x1_0000_0000;
    hide *;
    LaidParts(info, aux, keys, gs, live, items);
    AllocateSafe(gs, live, Shapes(info, aux), 1);
    NewRunsClear(info, aux, keys, o.groups, live, o.runs);
    var r, areas := o.runs[0], AreasOf(info, aux, keys) + live;
    assert o.runs == [r];
    ClearOne(areas, r);
    FileLayout.OneBlock(r, data, info.blockSize);
    AddItem(items, areas, r, Item(r.block, Memory(data)), info.blockSize);
    assert areas + [r] == AreasOf(info, aux, keys) + (live + o.runs);
    LaidIs(info, aux, keys, o.groups, live + o.runs, WriteQueue.Insert(items, Item(r.block, Memory(data))));
  }

  /** The queue with both tables. */
  function WithTables(items: seq<Item>, t: Tables, rowsAt: u32): seq<Item> {
    WriteQueue.Insert(WriteQueue.Insert(items, Item(t.dind, Memory(TableBytes(t.slots)))),
                      Item(rowsAt, Memory(TableBytes(t.rows))))
  }

  lemma WithTablesIs(items: seq<Item>, t: Tables, rowsAt: u32, bs: nat, len: nat)
    ensures var more := WithTables(items, t, rowsAt);
            && Item(t.dind, Memory(TableBytes(t.slots))) in more && Item(rowsAt, Memory(TableBytes(t.rows))) in more
            && (forall x :: x in items ==> x in more)
            && (NoFileAtEnd(more, bs, len) <==> NoFileAtEnd(items, bs, len))
  {
    var x, y := Item(t.dind, Memory(TableBytes(t.slots))), Item(rowsAt, Memory(TableBytes(t.rows)));
    InsertedAre(items, x);
    InsertedAre(WriteQueue.Insert(items, x), y);
    BufferNeverEnds(items, t.dind, TableBytes(t.slots), bs, len);
    BufferNeverEnds(WriteQueue.Insert(items, x), rowsAt, TableBytes(t.rows), bs, len);
    hide WriteQueue.Insert, NoFileAtEnd, TableBytes;
  }

  /** The state after the resize inode has been created. */
  ghost predicate Created(info: Info, aux: Aux, keys: seq<Key>, gs: seq<Group>, live: seq<Run>, before: seq<Item>,
                          after: seq<Group>, items: seq<Item>, t: Tables)
    requires Buildable(info, aux)
  {
    && OneBlockFree(gs) && after == AllocatorSpec.DoAllocate(gs, 1).groups
    && Laid(info, aux, keys + [Key(0, ReservedDescriptors)], after, live + AllocatorSpec.DoAllocate(gs, 1).runs, items)
    && TablesFor(info, aux, t) && TablesIn(items, info, aux, t)
    && (forall x :: x in before ==> x in items)
    && (NoFileAtEnd(items, info.blockSize, info.len) <==> NoFileAtEnd(before, info.blockSize, info.len))
  }

  lemma RowsPlace(info: Info, aux: Aux)
    requires Buildable(info, aux) && aux.groups > 0
    ensures var runs, k := ReservedRuns(info, aux, aux.groups), Key(0, ReservedDescriptors);
            && Queueable(info, aux, k) && LengthOf(aux, ReservedDescriptors) == aux.bgDescReserveBlocks
            && runs != [] && AreaOf(info, aux, k).block == runs[0].block < TWO32
  {
    FirstHeader(info, aux);
    ReservedFirst(info, aux, aux.groups);
    AreaBounds(info, aux, Key(0, ReservedDescriptors), true);
    hide ReservedRuns, Buildable, FirstBlock, HasSuperBlock, AreaOf;
  }

  lemma TableSizes(info: Info, aux: Aux, t: Tables)
    requires TablesFor(info, aux, t) && info.blockSize == 4 * aux.blocksPerInd
    ensures |TableBytes(t.slots)| == info.blockSize > 0
    ensures |TableBytes(t.rows)| == aux.bgDescReserveBlocks * info.blockSize
  {
    hide ReservedRuns, TableDone, RowsFound, TableBytes;
    assert 4 * (aux.bgDescReserveBlocks * aux.blocksPerInd) == aux.bgDescReserveBlocks * (4 * aux.blocksPerInd);
  }

  lemma OtherBlock(info: Info, aux: Aux, t: Tables, dind: u32)
    requires TablesFor(info, aux, t)
    ensures TablesFor(info, aux, t.(dind := dind)) && aux.bgDescReserveBlocks > 0
    ensures ReservedRuns(info, aux, aux.groups) != []
  {
    hide ReservedRuns, TableDone, RowsFound;
  }

  /** The two calls of queue_data_block in inode_attach_resize. */
  method QueueBoth(q: Queue, info: Info, aux: Aux, t: Tables, rowsAt: u32, ghost keys: seq<Key>, ghost gs: seq<Group>,
                   ghost live: seq<Run>, ghost o: Outcome)
    requires q.Valid() && Buildable(info, aux) && Laid(info, aux, keys, gs, live, q.Items())
    requires aux.groups > 0 && info.blockSize == 4 * aux.blocksPerInd && Key(0, ReservedDescriptors) !in keys
    requires TablesFor(info, aux, t) && ReservedRuns(info, aux, aux.groups) != []
    requires rowsAt as nat == ReservedRuns(info, aux, aux.groups)[0].block && aux.bgDescReserveBlocks > 0
    requires OneBlockFree(gs) && o == AllocatorSpec.DoAllocate(gs, 1) && o.Done? && o.runs != []
    requires t.dind as nat == o.runs[0].block
    modifies q, q.nodes
    ensures q.Valid() && q.Items() == WithTables(old(q.Items()), t, rowsAt)
    ensures Laid(info, aux, keys + [Key(0, ReservedDescriptors)], o.groups, live + o.runs, q.Items())
    ensures forall j :: 0 <= j < |q.nodes| ==> fresh(q.nodes[j]) || q.nodes[j] in old(q.nodes)
  {
    hide *;
    ghost var items := q.Items();
    BothAre(items, t, rowsAt);
    TableSizes(info, aux, t);
    BlockLaid(info, aux, keys, gs, live, items, o, TableBytes(t.slots));
    q.QueueDataBlock(TableBytes(t.slots), t.dind);
    assert forall j :: 0 <= j < |q.nodes| ==> fresh(q.nodes[j]) || q.nodes[j] in old(q.nodes);
    RowsPlace(info, aux);
    QueuePart(q, info, aux, Key(0, ReservedDescriptors), rowsAt, TableBytes(t.rows), keys, o.groups, live + o.runs);
  }

  lemma BothAre(items: seq<Item>, t: Tables, rowsAt: u32)
    ensures WithTables(items, t, rowsAt)
         == WriteQueue.Insert(WriteQueue.Insert(items, Item(t.dind, Memory(TableBytes(t.slots)))),
                              Item(rowsAt, Memory(TableBytes(t.rows))))
  {}

  /** The block for the first table, and both in the queue. */
  method QueueTables(a: Allocator, q: Queue, info: Info, aux: Aux, t: Tables, rowsAt: u32, ghost keys: seq<Key>,
                     ghost live: seq<Run>)
    returns (ok: bool, dind: u32)
    requires a.Valid() && q.Valid() && Buildable(info, aux) && Laid(info, aux, keys, a.View(), live, q.Items())
    requires aux.groups > 0 && info.blockSize == 4 * aux.blocksPerInd && Key(0, ReservedDescriptors) !in keys
    requires TablesFor(info, aux, t) && rowsAt as nat == ReservedRuns(info, aux, aux.groups)[0].block
    modifies a.Repr(), q, q.nodes
    ensures a.Valid() && q.Valid() && (ok <==> OneBlockFree(old(a.View())))
    ensures ok ==> Created(info, aux, keys, old(a.View()), live, old(q.Items()), a.View(), q.Items(), t.(dind := dind))
    ensures forall j :: 0 <= j < |q.nodes| ==> fresh(q.nodes[j]) || q.nodes[j] in old(q.nodes)
  {
    hide Allocator.Valid, Allocator.View, Queue.Valid, Queue.Items, Buildable, Laid, TablesFor, AllocatorSpec.DoAllocate;
    hide TableBytes, WriteQueue.Insert, Queueable, AreaOf, ReservedRuns, Created, OneBlockFree;
    ghost var gs, items := a.View(), q.Items();
    FreeIs(gs);
    var reg, hang;
    ghost var nodes;
    reg, hang, nodes := a.DoAllocate(1);
    if reg == null {
      return false, 0;
    }
    ok, dind := true, reg.block;
    ghost var o := AllocatorSpec.DoAllocate(gs, 1);
    FirstOfList(reg, nodes, o.runs);
    OtherBlock(info, aux, t, dind);
    assert q !in a.Repr() && forall n :: n in q.nodes ==> n !in a.Repr();
    QueueBoth(q, info, aux, t.(dind := dind), rowsAt, keys, gs, live, o);
    CreatedIs(info, aux, keys, gs, live, items, o, q.Items(), t.(dind := dind), rowsAt);
  }

  lemma FreeIs(gs: seq<Group>)
    ensures OneBlockFree(gs) <==> AllocatorSpec.DoAllocate(gs, 1).Done?
    ensures OneBlockFree(gs) ==> AllocatorSpec.DoAllocate(gs, 1).runs != []
  {
    if OneBlockFree(gs) {
      OneBlockTaken(gs);
    }
    hide AllocatorSpec.DoAllocate;
  }

  lemma FirstOfList(reg: Region, nodes: seq<Region>, runs: seq<Run>)
    requires IsList(reg, nodes, runs) && runs != []
    ensures runs[0].block == reg.block as nat
  {
    RunAt(nodes, 0);
    hide RunsOf, Linked, BackLinked;
  }

  lemma CreatedIs(info: Info, aux: Aux, keys: seq<Key>, gs: seq<Group>, live: seq<Run>, before: seq<Item>, o: Outcome,
                  items: seq<Item>, t: Tables, rowsAt: u32)
    requires Buildable(info, aux) && OneBlockFree(gs) && o == AllocatorSpec.DoAllocate(gs, 1) && o.Done? && aux.groups > 0
    requires items == WithTables(before, t, rowsAt) && TablesFor(info, aux, t)
    requires ReservedRuns(info, aux, aux.groups) != [] && rowsAt as nat == ReservedRuns(info, aux, aux.groups)[0].block
    requires Laid(info, aux, keys + [Key(0, ReservedDescriptors)], o.groups, live + o.runs, items)
    ensures Created(info, aux, keys, gs, live, before, o.groups, items, t)
  {
    WithTablesIs(before, t, rowsAt, info.blockSize, info.len);
    hide Buildable, Laid, TablesFor, ReservedRuns, AllocatorSpec.DoAllocate, TableBytes, WithTables, NoFileAtEnd, OneBlockFree;
  }

  /** ext4_create_resize_inode: it works exactly in the states that ResizeWorks describes. */
  method CreateResizeInode(a: Allocator, q: Queue, info: Info, aux: Aux, ghost keys: seq<Key>, ghost live: seq<Run>)
    returns (ok: bool, dind: u32, ghost t: Tables)
    requires a.Valid() && q.Valid() && Buildable(info, aux) && Laid(info, aux, keys, a.View(), live, q.Items())
    requires aux.groups > 0 && info.blockSize == 4 * aux.blocksPerInd && aux.bgDescReserveBlocks <= aux.blocksPerInd
    requires Key(0, ReservedDescriptors) !in keys
    modifies a.Repr(), q, q.nodes
    ensures a.Valid() && q.Valid() && (ok <==> ResizeWorks(info, aux, old(a.View())))
    ensures ok ==> t.dind == dind && Created(info, aux, keys, old(a.View()), live, old(q.Items()), a.View(), q.Items(), t)
    ensures forall j :: 0 <= j < |q.nodes| ==> fresh(q.nodes[j]) || q.nodes[j] in old(q.nodes)
  {
    hide Allocator.Valid, Allocator.View, Queue.Valid, Queue.Items, Buildable, Laid, TablesFor, OneBlockFree, ReservedRuns;
    hide Created;
    t, dind := Tables(0, [], []), 0;
    var outcome, slots, rows, rowsAt := ResizeTables(info, aux);
    if outcome != Attached {
      return false, dind, t;
    }
    RowsPlace(info, aux);
    TablesPositive(info, aux, Tables(0, slots, rows));
    ok, dind := QueueTables(a, q, info, aux, Tables(0, slots, rows), rowsAt, keys, live);
    t := Tables(dind, slots, rows);
  }

  lemma TablesPositive(info: Info, aux: Aux, t: Tables)
    requires TablesFor(info, aux, t)
    ensures aux.bgDescReserveBlocks > 0
  {}
}
