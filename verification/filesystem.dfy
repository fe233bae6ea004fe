/** A whole filesystem: headers, inode tables and files, written as a sparse image and read back from it. */
module Filesystem {
  import opened Words
  import opened Geometry
  import opened AllocatorSpec
  import opened AllocatorRuns
  import opened BlockGroups
  import opened Allocators
  import opened AllocatorSafety
  import opened WriteQueue
  import opened QueueAreas
  import opened HeaderQueue
  import opened FileLayout
  import opened DeviceQueue
  import opened ImageEnd
  import opened ResizeQueue
  import opened ExtentTree
  import opened FileReadBack
  import opened Ext4Image
  import E = Extents
  import S = ExtentsSpec
  import ImageWrites
  import Resize
  import OutputFiles
  import Simg2Img

  // ----- a file in the queue -----

  /** A mapped file: what it kept, how many regions its allocation had, and its contents. */
  datatype Filed = Filed(kept: S.Kept, regions: nat, b: E.Backing)

  /** The file is in the queue, and its tree can be read from this root. */
  ghost predicate FileIn(items: seq<Item>, f: Filed, bs: nat, root: seq<byte>) {
    && E.BlocksFit(f.kept.runs) && Narrow(f.kept.runs) && Readable(f.kept, f.regions, bs)
    && |f.b.data| <= S.Bytes(S.Prefix(f.kept.runs, |f.kept.runs|), bs)
    && HoldsFile(items, f.kept, f.regions, bs, f.b) && root == RootOf(f.kept.runs, E.LeafNumber(f.kept), f.regions)
  }

  lemma FileStays(items: seq<Item>, more: seq<Item>, f: Filed, bs: nat, root: seq<byte>)
    requires FileIn(items, f, bs, root) && forall x :: x in items ==> x in more
    ensures FileIn(more, f, bs, root)
  {
    MoreHoldsFile(items, more, f.kept, f.regions, bs, f.b);
    hide HoldsFile, Readable, Narrow, E.BlocksFit, S.Bytes, S.Prefix, RootOf, E.LeafNumber;
  }

  lemma {:induction false} ShortOnDevice(info: Info, aux: Aux, gs: seq<Group>, live: seq<Run>, runs: seq<Run>)
    requires Buildable(info, aux) && Safe(gs, live + runs, Shapes(info, aux)) && info.blockSize <= 4096
    ensures ShortRegions(runs, INIT_MAX_LEN)
    ensures forall i :: 0 <= i < |runs| && runs[i].len > 0 ==> runs[i].block < 0x1_0000_0000
  {
    assert info.blocksPerGroup <= 8 * info.blockSize && aux.lenBlocks < 0x1_0000_0000;
    hide Buildable, Safe, Shapes;
    forall i | 0 <= i < |runs|
      ensures runs[i].len <= INIT_MAX_LEN && (runs[i].len > 0 ==> runs[i].block < 0x1_0000_0000)
    {
      assert (live + runs)[|live| + i] == runs[i];
      if runs[i].len > 0 {
        LiveRunOnDevice(info, aux, gs, live + runs, |live| + i);
      }
    }
  }

  lemma {:induction false} EmptyFile(gs: seq<Group>)
    requires AllocatorSpec.DoAllocate(gs, 1).Done?
    ensures |AllocatorSpec.DoAllocate(gs, 1).runs| <= 3
  {
    E.KeptFacts(gs, 0);
    S.TotalAtLeast(AllocatorSpec.DoAllocate(gs, 1).runs);
    hide *;
  }

  /** A mapped file whose contents fit its regions has at most three regions or a first one of two blocks. */
  lemma {:induction false} FewOrLong(gs: seq<Group>, bs: nat, n: nat)
    requires bs > 0 && DivRoundUp(n, bs) < 0xFFFF_FFFF && AllocatorSpec.DoAllocate(gs, DivRoundUp(n, bs) + 1).Done?
    requires n <= S.Bytes(S.Prefix(E.KeptFor(gs, DivRoundUp(n, bs)).runs, |E.KeptFor(gs, DivRoundUp(n, bs)).runs|), bs)
    ensures var runs := AllocatorSpec.DoAllocate(gs, DivRoundUp(n, bs) + 1).runs; |runs| <= 3 || runs[0].len >= 2
  {
    if n == 0 {
      DivRoundUpUnique(0, bs, 0);
      EmptyFile(gs);
    } else {
      FullFileFits(gs, bs, n);
    }
    hide *;
  }

  lemma NarrowIs(runs: seq<Run>)
    requires S.Prefix(runs, |runs|) < 0x1_0000_0000 && E.BlocksFit(runs)
    ensures Narrow(runs)
  {
    hide S.Prefix;
  }

  /** A file that was mapped without a crash is in the queue, and its tree is readable. */
  lemma {:induction false} FileEnters(info: Info, aux: Aux, gs: seq<Group>, live: seq<Run>, bs: nat, blocks: nat,
                                      b: E.Backing, before: seq<Item>, after: seq<Group>, items: seq<Item>, root: seq<byte>)
    requires Buildable(info, aux) && Safe(gs, live, Shapes(info, aux)) && 0 < bs <= 4096 && bs == info.blockSize
    requires blocks == DivRoundUp(|b.data|, bs) < 0xFFFF_FFFF && E.FileOutcome(gs, blocks, bs) == E.Mapped
    requires QueuedFor(gs, blocks, bs, b, before, after, items, root, false)
    ensures AllocatorSpec.DoAllocate(gs, blocks + 1).Done?
    ensures FileIn(items, FiledFor(gs, blocks, b), bs, root)
    ensures forall x :: x in before ==> x in items
  {
    hide *;
    QueuedForParts(gs, blocks, bs, b, before, after, items, root);
    MappedHoldsFile(gs, blocks, bs, b, before, after, items, root);
    var o := AllocatorSpec.DoAllocate(gs, blocks + 1);
    AllocateSafe(gs, live, Shapes(info, aux), blocks + 1);
    ShortOnDevice(info, aux, o.groups, live, o.runs);
    FewOrLong(gs, bs, |b.data|);
    E.KeptFacts(gs, blocks);
    MappedReadable(gs, blocks, bs);
    NarrowIs(E.KeptFor(gs, blocks).runs);
    FiledIs(gs, blocks, b, items, bs, root);
  }

  ghost function FiledFor(gs: seq<Group>, blocks: nat, b: E.Backing): Filed
    requires AllocatorSpec.DoAllocate(gs, blocks + 1).Done?
  {
    Filed(E.KeptFor(gs, blocks), |AllocatorSpec.DoAllocate(gs, blocks + 1).runs|, b)
  }

  lemma FiledIs(gs: seq<Group>, blocks: nat, b: E.Backing, items: seq<Item>, bs: nat, root: seq<byte>)
    requires AllocatorSpec.DoAllocate(gs, blocks + 1).Done?
    requires var kept, regions := E.KeptFor(gs, blocks), |AllocatorSpec.DoAllocate(gs, blocks + 1).runs|;
             && E.BlocksFit(kept.runs) && Narrow(kept.runs) && Readable(kept, regions, bs)
             && |b.data| <= S.Bytes(S.Prefix(kept.runs, |kept.runs|), bs) && E.LeafNumber(kept) < 0x1_0000_0000
             && HoldsFile(items, kept, regions, bs, b) && root == RootOf(kept.runs, E.LeafNumber(kept), regions)
    ensures FileIn(items, FiledFor(gs, blocks, b), bs, root) && FiledFor(gs, blocks, b).b == b
  {
    hide AllocatorSpec.DoAllocate, E.KeptFor, HoldsFile, Readable, Narrow, E.BlocksFit, S.Bytes, S.Prefix, RootOf;
  }

  // ----- the filesystem under construction -----

  /** Every file so far is in the queue, with its root. */
  ghost predicate Held(items: seq<Item>, files: seq<Filed>, bs: nat, roots: seq<seq<byte>>) {
    |files| == |roots| && forall k :: 0 <= k < |files| ==> FileIn(items, files[k], bs, roots[k])
  }

  /** Allocator and queue agree: safe groups, items in their own areas, and every file in the queue. */
  ghost predicate Building(a: Allocator, q: Queue, info: Info, aux: Aux, keys: seq<Key>, live: seq<Run>, files: seq<Filed>,
                           roots: seq<seq<byte>>)
    reads a.Repr(), q, q.nodes
  {
    && a.Valid() && q.Valid() && a.n == info.blocksPerGroup && Buildable(info, aux)
    && Laid(info, aux, keys, a.View(), live, q.Items()) && Held(q.Items(), files, info.blockSize, roots)
  }

  lemma BuildingParts(a: Allocator, q: Queue, info: Info, aux: Aux, keys: seq<Key>, live: seq<Run>, files: seq<Filed>,
                      roots: seq<seq<byte>>)
    requires Building(a, q, info, aux, keys, live, files, roots)
    ensures a.Valid() && q.Valid() && a.n == info.blocksPerGroup && Buildable(info, aux)
    ensures Laid(info, aux, keys, a.View(), live, q.Items()) && Held(q.Items(), files, info.blockSize, roots)
  {}

  lemma BuildingIs(a: Allocator, q: Queue, info: Info, aux: Aux, keys: seq<Key>, live: seq<Run>, files: seq<Filed>,
                   roots: seq<seq<byte>>)
    requires a.Valid() && q.Valid() && a.n == info.blocksPerGroup && Buildable(info, aux)
    requires Laid(info, aux, keys, a.View(), live, q.Items()) && Held(q.Items(), files, info.blockSize, roots)
    ensures Building(a, q, info, aux, keys, live, files, roots)
  {}

  lemma HeldStays(items: seq<Item>, more: seq<Item>, files: seq<Filed>, bs: nat, roots: seq<seq<byte>>)
    requires Held(items, files, bs, roots) && forall x :: x in items ==> x in more
    ensures Held(more, files, bs, roots)
  {
    hide FileIn;
    forall k | 0 <= k < |files|
      ensures FileIn(more, files[k], bs, roots[k])
    {
      FileStays(items, more, files[k], bs, roots[k]);
    }
  }

  lemma HeldMore(items: seq<Item>, files: seq<Filed>, f: Filed, bs: nat, roots: seq<seq<byte>>, root: seq<byte>)
    requires Held(items, files, bs, roots) && FileIn(items, f, bs, root)
    ensures Held(items, files + [f], bs, roots + [root])
  {
    hide FileIn;
  }

  /** Nothing leaves the queue, and a chunk at the end of the image is added only if ends says so. */
  ghost predicate Grows(before: seq<Item>, after: seq<Item>, bs: nat, len: nat, ends: bool) {
    && (forall x :: x in before ==> x in after)
    && (NoFileAtEnd(after, bs, len) <==> NoFileAtEnd(before, bs, len) && !ends)
  }

  lemma GrowsByBuffer(before: seq<Item>, block: u32, data: seq<byte>, bs: nat, len: nat)
    ensures Grows(before, WriteQueue.Insert(before, Item(block, Memory(data))), bs, len, false)
  {
    InsertedAre(before, Item(block, Memory(data)));
    BufferNeverEnds(before, block, data, bs, len);
    hide WriteQueue.Insert, NoFileAtEnd;
  }

  lemma GroupBytesFit(info: Info, aux: Aux, n: nat)
    requires Buildable(info, aux) && info.blockSize <= 4096 && n == info.blocksPerGroup
    ensures n * info.blockSize < 0x1_0000_0000
  {
    GroupBytes(n, info.blockSize);
    hide Sound;
  }

  /** The calls for one file end well exactly when it is mapped and, unless it is empty, its first region has two blocks
      or more. */
  ghost predicate FileWorks(gs: seq<Group>, bs: nat, b: E.Backing)
    requires bs > 0
  {
    var blocks := DivRoundUp(|b.data|, bs);
    && E.FileOutcome(gs, blocks, bs) == E.Mapped && AllocatorSpec.DoAllocate(gs, blocks + 1).Done?
    && (b.data == [] || (AllocatorSpec.DoAllocate(gs, blocks + 1).runs != []
                         && AllocatorSpec.DoAllocate(gs, blocks + 1).runs[0].len >= 2))
  }

  /** The groups after such calls. */
  ghost function AfterFile(gs: seq<Group>, bs: nat, b: E.Backing): seq<Group>
    requires bs > 0 && FileWorks(gs, bs, b)
  {
    E.KeptFor(gs, DivRoundUp(|b.data|, bs)).groups
  }

  lemma AfterIs(gs: seq<Group>, bs: nat, blocks: nat, b: E.Backing, before: seq<Item>, after: seq<Group>, items: seq<Item>,
                root: seq<byte>)
    requires bs > 0 && blocks == DivRoundUp(|b.data|, bs) && FileWorks(gs, bs, b)
    requires QueuedFor(gs, blocks, bs, b, before, after, items, root, false)
    ensures after == AfterFile(gs, bs, b)
  {
    QueuedForParts(gs, blocks, bs, b, before, after, items, root);
    hide AllocatorSpec.DoAllocate, E.KeptFor, DivRoundUp, QueuedFor, FileWorks;
  }

  /** A chunk of the file ends at the end of the image. */
  ghost predicate EndsThere(gs: seq<Group>, bs: nat, b: E.Backing, len: nat)
    requires bs > 0
  {
    FileWorks(gs, bs, b) && FileEnds(gs, DivRoundUp(|b.data|, bs), bs, b, len)
  }

  lemma EndsThereIs(gs: seq<Group>, bs: nat, blocks: nat, b: E.Backing, len: nat)
    requires bs > 0 && blocks == DivRoundUp(|b.data|, bs) && FileWorks(gs, bs, b)
    ensures AllocatorSpec.DoAllocate(gs, blocks + 1).Done? && (EndsThere(gs, bs, b, len) <==> FileEnds(gs, blocks, bs, b, len))
  {
    hide AllocatorSpec.DoAllocate, E.FileOutcome, DivRoundUp, FileEnds;
  }

  lemma GrowsIs(before: seq<Item>, after: seq<Item>, bs: nat, len: nat, ends: bool)
    requires forall x :: x in before ==> x in after
    requires NoFileAtEnd(after, bs, len) <==> NoFileAtEnd(before, bs, len) && !ends
    ensures Grows(before, after, bs, len, ends)
  {}

  lemma CrashParts(gs: seq<Group>, bs: nat, blocks: nat, b: E.Backing, before: seq<Item>, after: seq<Group>, items: seq<Item>,
                   root: seq<byte>, crash: bool)
    requires QueuedFor(gs, blocks, bs, b, before, after, items, root, crash)
    ensures AllocatorSpec.DoAllocate(gs, blocks + 1).Done?
    ensures var kept := E.KeptFor(gs, blocks).runs; crash <==> |b.data| > S.Bytes(S.Prefix(kept, |kept|), bs)
  {
    hide AllocatorSpec.DoAllocate, E.KeptFor, S.Prefix, S.Bytes, RootOf, E.BlocksFit, E.Queued, E.WithLeaf, E.LeafNumber;
  }

  lemma WorksIs(gs: seq<Group>, bs: nat, blocks: nat, b: E.Backing)
    requires bs > 0 && blocks == DivRoundUp(|b.data|, bs) && E.FileOutcome(gs, blocks, bs) == E.Mapped
    requires AllocatorSpec.DoAllocate(gs, blocks + 1).Done?
    ensures FileWorks(gs, bs, b) <==>
              b.data == [] || (AllocatorSpec.DoAllocate(gs, blocks + 1).runs != []
                               && AllocatorSpec.DoAllocate(gs, blocks + 1).runs[0].len >= 2)
  {
    hide AllocatorSpec.DoAllocate, E.FileOutcome, DivRoundUp;
  }

  lemma {:induction false} WorksIff(gs: seq<Group>, bs: nat, blocks: nat, b: E.Backing, before: seq<Item>, after: seq<Group>,
                                    items: seq<Item>, root: seq<byte>, crash: bool)
    requires bs > 0 && blocks == DivRoundUp(|b.data|, bs) < 0xFFFF_FFFF && E.FileOutcome(gs, blocks, bs) == E.Mapped
    requires QueuedFor(gs, blocks, bs, b, before, after, items, root, crash)
    ensures !crash <==> FileWorks(gs, bs, b)
  {
    hide *;
    CrashParts(gs, bs, blocks, b, before, after, items, root, crash);
    WorksIs(gs, bs, blocks, b);
    if |b.data| > 0 {
      FullFileFits(gs, bs, |b.data|);
    }
  }

  /** inode_allocate_file_extents, or inode_allocate_data_extents with all of the data. */
  method AddFile(a: Allocator, q: Queue, info: Info, aux: Aux, b: E.Backing, ghost keys: seq<Key>, ghost live: seq<Run>,
                 ghost files: seq<Filed>, ghost roots: seq<seq<byte>>)
    returns (ok: bool, root: seq<byte>, ghost newLive: seq<Run>, ghost file: Filed)
    requires Building(a, q, info, aux, keys, live, files, roots) && 1024 <= info.blockSize <= 4096
    requires DivRoundUp(|b.data|, info.blockSize) < 0xFFFF_FFFF
    modifies a.Repr(), q, q.nodes
    ensures ok <==> FileWorks(old(a.View()), info.blockSize, b)
    ensures ok ==> a.View() == AfterFile(old(a.View()), info.blockSize, b)
    ensures ok ==> Building(a, q, info, aux, keys, newLive, files + [file], roots + [root]) && file.b == b
    ensures ok ==> Grows(old(q.Items()), q.Items(), info.blockSize, info.len,
                         EndsThere(old(a.View()), info.blockSize, b, info.len))
    ensures forall j :: 0 <= j < |q.nodes| ==> fresh(q.nodes[j]) || q.nodes[j] in old(q.nodes)
  {
    hide Building, Laid, Held, Buildable, FileIn, DivRoundUp, QueuedFor, FileWorks, Allocator.Valid, Allocator.View;
    hide Queue.Valid, Queue.Items, E.FileOutcome, AllocatorSpec.DoAllocate, Safe, EndsThere, Grows;
    BuildingParts(a, q, info, aux, keys, live, files, roots);
    GroupBytesFit(info, aux, a.n);
    ghost var gs, items := a.View(), q.Items();
    var crash, result;
    result, crash, root := InodeAllocateExtents(a, q, info.blockSize, |b.data|, b);
    newLive, file := live, Filed(S.Kept([], [], -1), 0, b);
    ok := result == E.Mapped && !crash;
    ghost var blocks := DivRoundUp(|b.data|, info.blockSize);
    FileSettled(a, q, info, aux, keys, live, files, roots, gs, items, info.blockSize, blocks, b, result, crash, root);
    if ok {
      newLive, file := live + TakenFor(gs, blocks), FiledFor(gs, blocks, b);
    }
  }

  lemma {:induction false} FileSettled(a: Allocator, q: Queue, info: Info, aux: Aux, keys: seq<Key>, live: seq<Run>,
                                       files: seq<Filed>, roots: seq<seq<byte>>, gs: seq<Group>, items: seq<Item>,
                                       bs: nat, blocks: nat, b: E.Backing, result: E.FileResult, crash: bool, root: seq<byte>)
    requires Buildable(info, aux) && Laid(info, aux, keys, gs, live, items) && Held(items, files, bs, roots)
    requires a.Valid() && q.Valid() && a.n == info.blocksPerGroup && 1024 <= bs <= 4096 && bs == info.blockSize
    requires blocks == DivRoundUp(|b.data|, bs) < 0xFFFF_FFFF && result == E.FileOutcome(gs, blocks, bs)
    requires result == E.Mapped ==> QueuedFor(gs, blocks, bs, b, items, a.View(), q.Items(), root, crash)
    ensures result == E.Mapped && !crash <==> FileWorks(gs, bs, b)
    ensures result == E.Mapped && !crash ==> a.View() == AfterFile(gs, bs, b)
    ensures result == E.Mapped && !crash ==> Grows(items, q.Items(), bs, info.len, EndsThere(gs, bs, b, info.len))
    ensures result == E.Mapped && !crash ==>
              AllocatorSpec.DoAllocate(gs, blocks + 1).Done? && FiledFor(gs, blocks, b).b == b
              && Building(a, q, info, aux, keys, live + TakenFor(gs, blocks), files + [FiledFor(gs, blocks, b)], roots + [root])
  {
    hide *;
    if result == E.Mapped {
      WorksIff(gs, bs, blocks, b, items, a.View(), q.Items(), root, crash);
      if !crash {
        AfterIs(gs, bs, blocks, b, items, a.View(), q.Items(), root);
        LaidParts(info, aux, keys, gs, live, items);
        FileLaid(info, aux, keys, gs, live, items, blocks, b, a.View(), q.Items(), root);
        FileEnters(info, aux, gs, live, bs, blocks, b, items, a.View(), q.Items(), root);
        FiledData(gs, blocks, b);
        MappedEnds(gs, blocks, bs, b, items, a.View(), q.Items(), root, info.len);
        EndsThereIs(gs, bs, blocks, b, info.len);
        GrowsIs(items, q.Items(), bs, info.len, EndsThere(gs, bs, b, info.len));
        HeldStays(items, q.Items(), files, bs, roots);
        HeldMore(q.Items(), files, FiledFor(gs, blocks, b), bs, roots, root);
        BuildingIs(a, q, info, aux, keys, live + TakenFor(gs, blocks), files + [FiledFor(gs, blocks, b)], roots + [root]);
      }
    } else {
      NotMapped(gs, bs, b);
    }
  }

  lemma FiledData(gs: seq<Group>, blocks: nat, b: E.Backing)
    requires AllocatorSpec.DoAllocate(gs, blocks + 1).Done?
    ensures FiledFor(gs, blocks, b).b == b
  {
    hide E.KeptFor, AllocatorSpec.DoAllocate;
  }

  lemma NotMapped(gs: seq<Group>, bs: nat, b: E.Backing)
    requires bs > 0 && E.FileOutcome(gs, DivRoundUp(|b.data|, bs), bs) != E.Mapped
    ensures !FileWorks(gs, bs, b)
  {
    hide E.FileOutcome, AllocatorSpec.DoAllocate, DivRoundUp;
  }

  method AddTableItem(q: Queue, info: Info, aux: Aux, i: nat, super: bool, table: seq<byte>, ghost keys: seq<Key>,
                      ghost gs: seq<Group>, ghost live: seq<Run>, ghost files: seq<Filed>, ghost roots: seq<seq<byte>>)
    requires q.Valid() && Buildable(info, aux) && Laid(info, aux, keys, gs, live, q.Items())
    requires Held(q.Items(), files, info.blockSize, roots) && super == HasSuperBlock(info.sparse, i)
    requires i < aux.groups && Key(i, InodeTable) !in keys && aux.inodeTableBlocks > 0 && info.blockSize > 0
    requires |table| == aux.inodeTableBlocks * info.blockSize
    modifies q, q.nodes
    ensures q.Valid() && Laid(info, aux, keys + [Key(i, InodeTable)], gs, live, q.Items())
    ensures Held(q.Items(), files, info.blockSize, roots)
    ensures Grows(old(q.Items()), q.Items(), info.blockSize, info.len, false)
    ensures PartHeld(q.Items(), info, aux, Key(i, InodeTable), table)
    ensures forall j :: 0 <= j < |q.nodes| ==> fresh(q.nodes[j]) || q.nodes[j] in old(q.nodes)
  {
    hide *;
    ghost var items := q.Items();
    var block := AllocateBgInodeTable(q, info, aux, i, super, table, keys, gs, live);
    E.InsertKeeps(items, Item(block, Memory(table)));
    HeldStays(items, q.Items(), files, info.blockSize, roots);
    GrowsByBuffer(items, block, table, info.blockSize, info.len);
  }

  /** The inode table of a group joins the queue when one of its inodes is first needed. */
  method AddTable(a: Allocator, q: Queue, info: Info, aux: Aux, i: nat, super: bool, table: seq<byte>, ghost keys: seq<Key>,
                  ghost live: seq<Run>, ghost files: seq<Filed>, ghost roots: seq<seq<byte>>)
    requires Building(a, q, info, aux, keys, live, files, roots) && info.blockSize > 0
    requires i < aux.groups && super == HasSuperBlock(info.sparse, i) && Key(i, InodeTable) !in keys
    requires aux.inodeTableBlocks > 0 && |table| == aux.inodeTableBlocks * info.blockSize
    modifies q, q.nodes
    ensures Building(a, q, info, aux, keys + [Key(i, InodeTable)], live, files, roots) && a.View() == old(a.View())
    ensures Grows(old(q.Items()), q.Items(), info.blockSize, info.len, false)
    ensures PartHeld(q.Items(), info, aux, Key(i, InodeTable), table)
    ensures forall j :: 0 <= j < |q.nodes| ==> fresh(q.nodes[j]) || q.nodes[j] in old(q.nodes)
  {
    hide Building, Laid, Held, Buildable, Allocator.Valid, Allocator.View, Queue.Valid, Queue.Items, HasSuperBlock, Grows;
    hide PartHeld;
    BuildingParts(a, q, info, aux, keys, live, files, roots);
    ghost var gs := a.View();
    assert q !in a.Repr() && forall n :: n in q.nodes ==> n !in a.Repr();
    AddTableItem(q, info, aux, i, super, table, keys, gs, live, files, roots);
    BuildingIs(a, q, info, aux, keys + [Key(i, InodeTable)], live, files, roots);
  }

  /** The tables of the resize inode are in the queue. */
  ghost predicate Made(items: seq<Item>, info: Info, aux: Aux, made: seq<Tables>, dinds: seq<u32>) {
    |made| == |dinds| && forall k :: 0 <= k < |made| ==>
      TablesFor(info, aux, made[k]) && TablesIn(items, info, aux, made[k]) && made[k].dind == dinds[k]
  }

  lemma TablesStay(items: seq<Item>, more: seq<Item>, info: Info, aux: Aux, t: Tables)
    requires TablesIn(items, info, aux, t) && forall x :: x in items ==> x in more
    ensures TablesIn(more, info, aux, t)
  {
    hide TableBytes, Resize.ReservedRuns;
  }

  lemma MadeStays(before: seq<Item>, after: seq<Item>, info: Info, aux: Aux, made: seq<Tables>, dinds: seq<u32>, bs: nat,
                  len: nat, ends: bool)
    requires Made(before, info, aux, made, dinds) && Grows(before, after, bs, len, ends)
    ensures Made(after, info, aux, made, dinds)
  {
    hide TablesFor, TablesIn, NoFileAtEnd;
    forall k | 0 <= k < |made|
      ensures TablesIn(after, info, aux, made[k])
    {
      TablesStay(before, after, info, aux, made[k]);
    }
  }

  lemma CreatedParts(info: Info, aux: Aux, keys: seq<Key>, gs: seq<Group>, live: seq<Run>, before: seq<Item>,
                     after: seq<Group>, items: seq<Item>, t: Tables)
    requires Buildable(info, aux) && Created(info, aux, keys, gs, live, before, after, items, t)
    ensures AllocatorSpec.DoAllocate(gs, 1).Done? && after == AllocatorSpec.DoAllocate(gs, 1).groups
    ensures Laid(info, aux, keys + [Key(0, ReservedDescriptors)], after, live + AllocatorSpec.DoAllocate(gs, 1).runs, items)
    ensures TablesFor(info, aux, t) && TablesIn(items, info, aux, t)
    ensures Grows(before, items, info.blockSize, info.len, false)
  {
    hide Buildable, Laid, TablesFor, TablesIn, AllocatorSpec.DoAllocate, NoFileAtEnd;
  }

  /** ext4_create_resize_inode: its tables join the queue. */
  method AddResize(a: Allocator, q: Queue, info: Info, aux: Aux, ghost keys: seq<Key>, ghost live: seq<Run>,
                   ghost files: seq<Filed>, ghost roots: seq<seq<byte>>)
    returns (ok: bool, dind: u32, ghost t: Tables, ghost newLive: seq<Run>)
    requires Building(a, q, info, aux, keys, live, files, roots) && Key(0, ReservedDescriptors) !in keys
    requires aux.groups > 0 && info.blockSize == 4 * aux.blocksPerInd && aux.bgDescReserveBlocks <= aux.blocksPerInd
    modifies a.Repr(), q, q.nodes
    ensures ok <==> ResizeWorks(info, aux, old(a.View()))
    ensures ok ==> AllocatorSpec.DoAllocate(old(a.View()), 1).Done? && a.View() == AllocatorSpec.DoAllocate(old(a.View()), 1).groups
    ensures ok ==> Building(a, q, info, aux, keys + [Key(0, ReservedDescriptors)], newLive, files, roots)
    ensures ok ==> TablesFor(info, aux, t) && TablesIn(q.Items(), info, aux, t) && t.dind == dind
    ensures ok ==> Grows(old(q.Items()), q.Items(), info.blockSize, info.len, false)
    ensures forall j :: 0 <= j < |q.nodes| ==> fresh(q.nodes[j]) || q.nodes[j] in old(q.nodes)
  {
    hide Building, Laid, Held, Buildable, Allocator.Valid, Allocator.View, Queue.Valid, Queue.Items, ResizeWorks, Created;
    hide TablesFor, TablesIn, Grows, AllocatorSpec.DoAllocate;
    BuildingParts(a, q, info, aux, keys, live, files, roots);
    ghost var gs, items := a.View(), q.Items();
    newLive := live;
    ok, dind, t := CreateResizeInode(a, q, info, aux, keys, live);
    if ok {
      CreatedParts(info, aux, keys, gs, live, items, a.View(), q.Items(), t);
      newLive := live + AllocatorSpec.DoAllocate(gs, 1).runs;
      GrownHeld(items, q.Items(), files, info.blockSize, roots, info.len);
      BuildingIs(a, q, info, aux, keys + [Key(0, ReservedDescriptors)], newLive, files, roots);
    }
  }

  lemma GrownHeld(items: seq<Item>, more: seq<Item>, files: seq<Filed>, bs: nat, roots: seq<seq<byte>>, len: nat)
    requires Held(items, files, bs, roots) && Grows(items, more, bs, len, false)
    ensures Held(more, files, bs, roots)
  {
    HeldStays(items, more, files, bs, roots);
    hide Held;
  }

  // ----- a whole run -----

  /** A group whose inode table is needed, a file to be mapped, or the resize inode. */
  datatype Step = Inode(group: nat) | File(b: E.Backing) | ResizeInode

  /** The groups exist, the block counts of the files fit, and the resize inode is created once at most. */
  ghost predicate StepsOk(steps: seq<Step>, aux: Aux, bs: nat)
    requires bs > 0
  {
    && (forall k :: 0 <= k < |steps| ==> StepOk(steps[k], aux, bs))
    && (forall j, k :: 0 <= j < k < |steps| && steps[j].ResizeInode? ==> !steps[k].ResizeInode?)
  }

  ghost predicate StepOk(step: Step, aux: Aux, bs: nat)
    requires bs > 0
  {
    match step
    case Inode(group) => group < aux.groups
    case File(b) => DivRoundUp(|b.data|, bs) < 0xFFFF_FFFF
    case ResizeInode => true
  }

  /** The step can be taken with these groups. */
  ghost predicate StepWorks(info: Info, aux: Aux, gs: seq<Group>, step: Step)
    requires info.blockSize > 0
  {
    match step
    case Inode(_) => true
    case File(b) => FileWorks(gs, info.blockSize, b)
    case ResizeInode => ResizeWorks(info, aux, gs)
  }

  /** The groups behind it. */
  ghost function AfterStep(info: Info, aux: Aux, gs: seq<Group>, step: Step): seq<Group>
    requires info.blockSize > 0
  {
    if !StepWorks(info, aux, gs, step) then gs
    else
      match step
      case Inode(_) => gs
      case File(b) => AfterFile(gs, info.blockSize, b)
      case ResizeInode => AllocatorSpec.DoAllocate(gs, 1).groups
  }

  /** It is a file with a chunk that ends at the end of the image. */
  ghost predicate StepEnds(info: Info, gs: seq<Group>, step: Step)
    requires info.blockSize > 0
  {
    step.File? && EndsThere(gs, info.blockSize, step.b, info.len)
  }

  /** Every step of the run can be taken, each in the state the ones in front of it leave. */
  ghost predicate AllWork(info: Info, aux: Aux, gs: seq<Group>, steps: seq<Step>, k: nat)
    requires info.blockSize > 0 && k <= |steps|
    decreases |steps| - k
  {
    k == |steps|
    || (StepWorks(info, aux, gs, steps[k]) && AllWork(info, aux, AfterStep(info, aux, gs, steps[k]), steps, k + 1))
  }

  /** And no chunk of a file ends at the end of the image. */
  ghost predicate NoneEnds(info: Info, aux: Aux, gs: seq<Group>, steps: seq<Step>, k: nat)
    requires info.blockSize > 0 && k <= |steps|
    decreases |steps| - k
  {
    k == |steps|
    || (!StepEnds(info, gs, steps[k]) && NoneEnds(info, aux, AfterStep(info, aux, gs, steps[k]), steps, k + 1))
  }

  /** The groups behind the run. */
  ghost function AfterAll(info: Info, aux: Aux, gs: seq<Group>, steps: seq<Step>, k: nat): seq<Group>
    requires info.blockSize > 0 && k <= |steps|
    decreases |steps| - k
  {
    if k == |steps| then gs else AfterAll(info, aux, AfterStep(info, aux, gs, steps[k]), steps, k + 1)
  }

  lemma WorkAt(info: Info, aux: Aux, gs: seq<Group>, steps: seq<Step>, k: nat)
    requires info.blockSize > 0 && k <= |steps|
    ensures k == |steps| ==>
              AllWork(info, aux, gs, steps, k) && NoneEnds(info, aux, gs, steps, k) && AfterAll(info, aux, gs, steps, k) == gs
    ensures k < |steps| ==>
              var after := AfterStep(info, aux, gs, steps[k]);
              && (AllWork(info, aux, gs, steps, k) <==>
                    StepWorks(info, aux, gs, steps[k]) && AllWork(info, aux, after, steps, k + 1))
              && (NoneEnds(info, aux, gs, steps, k) <==>
                    !StepEnds(info, gs, steps[k]) && NoneEnds(info, aux, after, steps, k + 1))
              && AfterAll(info, aux, gs, steps, k) == AfterAll(info, aux, after, steps, k + 1)
  {
    hide StepWorks, AfterStep, StepEnds;
  }

  /** The contents of the files, in order. */
  function FilesOf(steps: seq<Step>, k: nat): seq<seq<byte>>
    requires k <= |steps|
  {
    if k == 0 then []
    else FilesOf(steps, k - 1) + (if steps[k - 1].File? then [steps[k - 1].b.data] else [])
  }

  /** How often the resize inode is created. */
  function ResizesIn(steps: seq<Step>, k: nat): nat
    requires k <= |steps|
  {
    if k == 0 then 0 else ResizesIn(steps, k - 1) + (if steps[k - 1].ResizeInode? then 1 else 0)
  }

  ghost predicate Contents(files: seq<Filed>, datas: seq<seq<byte>>) {
    |files| == |datas| && forall k :: 0 <= k < |files| ==> files[k].b.data == datas[k]
  }

  lemma StepAt(steps: seq<Step>, aux: Aux, bs: nat, k: nat)
    requires bs > 0 && StepsOk(steps, aux, bs) && k < |steps|
    ensures StepOk(steps[k], aux, bs)
    ensures FilesOf(steps, k + 1) == FilesOf(steps, k) + (if steps[k].File? then [steps[k].b.data] else [])
    ensures ResizesIn(steps, k + 1) == ResizesIn(steps, k) + (if steps[k].ResizeInode? then 1 else 0)
    ensures steps[k].ResizeInode? ==> forall j :: 0 <= j < k ==> !steps[j].ResizeInode?
  {}

  lemma ContentsMore(files: seq<Filed>, datas: seq<seq<byte>>, f: Filed)
    requires Contents(files, datas)
    ensures Contents(files + [f], datas + [f.b.data])
  {}

  /** The inode tables that are queued, and whether the rows of the resize inode are. */
  ghost predicate Tabled(keys: seq<Key>, tabled: set<nat>, dinds: seq<u32>) {
    && (forall i: nat :: Key(i, InodeTable) in keys <==> i in tabled)
    && (dinds == [] ==> Key(0, ReservedDescriptors) !in keys)
  }

  lemma TabledMore(keys: seq<Key>, tabled: set<nat>, dinds: seq<u32>, i: nat)
    requires Tabled(keys, tabled, dinds)
    ensures Tabled(keys + [Key(i, InodeTable)], tabled + {i}, dinds)
  {}

  lemma ResizeTabled(keys: seq<Key>, tabled: set<nat>, dinds: seq<u32>, dind: u32)
    requires Tabled(keys, tabled, dinds)
    ensures Tabled(keys + [Key(0, ReservedDescriptors)], tabled, dinds + [dind])
  {}

  lemma NotTabled(keys: seq<Key>, tabled: set<nat>, dinds: seq<u32>, i: nat)
    requires Tabled(keys, tabled, dinds)
    ensures i !in tabled ==> Key(i, InodeTable) !in keys
    ensures dinds == [] ==> Key(0, ReservedDescriptors) !in keys
  {}

  /** The inode tables of these groups are in the queue, each group's own. */
  ghost predicate TablesHeld(items: seq<Item>, info: Info, aux: Aux, tables: seq<seq<byte>>, tabled: set<nat>) {
    forall i :: i in tabled ==> i < |tables| && PartHeld(items, info, aux, Key(i, InodeTable), tables[i])
  }

  lemma TablesHeldOn(items: seq<Item>, more: seq<Item>, info: Info, aux: Aux, tables: seq<seq<byte>>, tabled: set<nat>, bs: nat,
                     len: nat, ends: bool)
    requires TablesHeld(items, info, aux, tables, tabled) && Grows(items, more, bs, len, ends)
    ensures TablesHeld(more, info, aux, tables, tabled)
  {
    hide PartHeld, NoFileAtEnd;
    forall i | i in tabled
      ensures PartHeld(more, info, aux, Key(i, InodeTable), tables[i])
    {
      PartStays(items, more, info, aux, Key(i, InodeTable), tables[i]);
    }
  }

  lemma TablesHeldMore(items: seq<Item>, info: Info, aux: Aux, tables: seq<seq<byte>>, tabled: set<nat>, i: nat)
    requires TablesHeld(items, info, aux, tables, tabled) && i < |tables|
    requires PartHeld(items, info, aux, Key(i, InodeTable), tables[i])
    ensures TablesHeld(items, info, aux, tables, tabled + {i})
  {
    hide PartHeld;
  }

  /** The groups whose inodes the first k steps need are among these. */
  ghost predicate Needed(steps: seq<Step>, k: nat, tabled: set<nat>)
    requires k <= |steps|
  {
    forall j :: 0 <= j < k && steps[j].Inode? ==> steps[j].group in tabled
  }

  lemma NeededMore(steps: seq<Step>, k: nat, tabled: set<nat>, more: set<nat>)
    requires k < |steps| && Needed(steps, k, tabled) && tabled <= more
    requires steps[k].Inode? ==> steps[k].group in more
    ensures Needed(steps, k + 1, more)
  {}

  lemma NothingNeeded(items: seq<Item>, info: Info, aux: Aux, tables: seq<seq<byte>>, steps: seq<Step>)
    ensures Needed(steps, 0, {}) && TablesHeld(items, info, aux, tables, {})
  {}

  /** Every inode table the run needs is in the queue. */
  ghost predicate TablesQueued(items: seq<Item>, info: Info, aux: Aux, tables: seq<seq<byte>>, steps: seq<Step>) {
    forall k :: 0 <= k < |steps| && steps[k].Inode? ==> TableQueued(items, info, aux, tables, steps[k].group)
  }

  ghost predicate TableQueued(items: seq<Item>, info: Info, aux: Aux, tables: seq<seq<byte>>, i: nat) {
    i < |tables| && PartHeld(items, info, aux, Key(i, InodeTable), tables[i])
  }

  lemma AllNeeded(items: seq<Item>, info: Info, aux: Aux, tables: seq<seq<byte>>, steps: seq<Step>, tabled: set<nat>)
    requires Needed(steps, |steps|, tabled) && TablesHeld(items, info, aux, tables, tabled)
    ensures TablesQueued(items, info, aux, tables, steps)
  {
    hide PartHeld;
  }

  /** Nothing leaves the queue. */
  ghost predicate Kept(before: seq<Item>, after: seq<Item>) {
    forall x :: x in before ==> x in after
  }

  lemma KeptStill(first: seq<Item>, before: seq<Item>, after: seq<Item>, bs: nat, len: nat, ends: bool)
    requires Kept(first, before) && Grows(before, after, bs, len, ends)
    ensures Kept(first, after)
  {
    hide NoFileAtEnd;
  }

  lemma KeptSame(items: seq<Item>)
    ensures Kept(items, items)
  {}

  lemma SameGrows(items: seq<Item>, bs: nat, len: nat)
    ensures Grows(items, items, bs, len, false)
  {}

  /** One step. */
  method TakeStep(a: Allocator, q: Queue, info: Info, aux: Aux, step: Step, tables: seq<seq<byte>>, tabled: set<nat>,
                  ghost dinds: seq<u32>, ghost keys: seq<Key>, ghost live: seq<Run>, ghost files: seq<Filed>,
                  ghost roots: seq<seq<byte>>)
    returns (ok: bool, nowTabled: set<nat>, newRoots: seq<seq<byte>>, newDinds: seq<u32>, ghost nowKeys: seq<Key>,
             ghost nowLive: seq<Run>, ghost newFiles: seq<Filed>, ghost newMade: seq<Tables>)
    requires Building(a, q, info, aux, keys, live, files, roots) && 1024 <= info.blockSize <= 4096 && aux.groups > 0
    requires StepOk(step, aux, info.blockSize) && aux.inodeTableBlocks > 0 && |tables| == aux.groups
    requires forall i :: 0 <= i < |tables| ==> |tables[i]| == aux.inodeTableBlocks * info.blockSize
    requires info.blockSize == 4 * aux.blocksPerInd && aux.bgDescReserveBlocks <= aux.blocksPerInd
    requires Tabled(keys, tabled, dinds) && (step.ResizeInode? ==> dinds == [])
    requires TablesHeld(q.Items(), info, aux, tables, tabled)
    modifies a.Repr(), q, q.nodes
    ensures ok <==> StepWorks(info, aux, old(a.View()), step)
    ensures ok ==> a.View() == AfterStep(info, aux, old(a.View()), step)
    ensures ok ==> Building(a, q, info, aux, nowKeys, nowLive, files + newFiles, roots + newRoots)
    ensures ok ==> Tabled(nowKeys, nowTabled, dinds + newDinds)
    ensures ok ==> |newFiles| == (if step.File? then 1 else 0) && (step.File? ==> newFiles[0].b == step.b)
    ensures ok ==> |newDinds| == (if step.ResizeInode? then 1 else 0) && Made(q.Items(), info, aux, newMade, newDinds)
    ensures ok ==> Grows(old(q.Items()), q.Items(), info.blockSize, info.len, StepEnds(info, old(a.View()), step))
    ensures ok ==> TablesHeld(q.Items(), info, aux, tables, nowTabled) && tabled <= nowTabled
    ensures ok && step.Inode? ==> step.group in nowTabled
    ensures forall j :: 0 <= j < |q.nodes| ==> fresh(q.nodes[j]) || q.nodes[j] in old(q.nodes)
  {
    hide Building, Tabled, DivRoundUp, FileWorks, Allocator.View, AfterFile, EndsThere, Grows, ResizeWorks;
    hide TablesFor, TablesIn, AllocatorSpec.DoAllocate, TablesHeld, PartHeld;
    ghost var items, gs := q.Items(), a.View();
    ok, nowTabled, newRoots, newDinds, nowKeys, nowLive, newFiles, newMade := true, tabled, [], [], keys, live, [], [];
    SameGrows(q.Items(), info.blockSize, info.len);
    NothingNew(files, roots, dinds);
    match step {
      case Inode(group) =>
        NotTabled(keys, tabled, dinds, group);
        if group !in tabled {
          var super := BgHasSuperBlock(info.sparse, group);
          AddTable(a, q, info, aux, group, super, tables[group], keys, live, files, roots);
          TabledMore(keys, tabled, dinds, group);
          nowKeys := keys + [Key(group, InodeTable)];
          nowTabled := tabled + {group};
          TablesHeldOn(items, q.Items(), info, aux, tables, tabled, info.blockSize, info.len, false);
          TablesHeldMore(q.Items(), info, aux, tables, tabled, group);
        }
      case File(b) =>
        var root;
        ghost var file;
        ok, root, nowLive, file := AddFile(a, q, info, aux, b, keys, live, files, roots);
        newFiles, newRoots := [file], [root];
        if ok {
          TablesHeldOn(items, q.Items(), info, aux, tables, tabled, info.blockSize, info.len,
                       EndsThere(gs, info.blockSize, b, info.len));
        }
      case ResizeInode =>
        NotTabled(keys, tabled, dinds, 0);
        var dind;
        ghost var t;
        ok, dind, t, nowLive := AddResize(a, q, info, aux, keys, live, files, roots);
        ResizeTabled(keys, tabled, dinds, dind);
        nowKeys := keys + [Key(0, ReservedDescriptors)];
        newDinds, newMade := [dind], [t];
        if ok {
          TablesHeldOn(items, q.Items(), info, aux, tables, tabled, info.blockSize, info.len, false);
        }
    }
  }

  lemma NothingNew(files: seq<Filed>, roots: seq<seq<byte>>, dinds: seq<u32>)
    ensures files + [] == files && roots + [] == roots && dinds + [] == dinds
  {}

  /** What the run has done so far. */
  ghost predicate Reached(items: seq<Item>, info: Info, aux: Aux, steps: seq<Step>, k: nat, files: seq<Filed>,
                          made: seq<Tables>, dinds: seq<u32>)
    requires k <= |steps|
  {
    Contents(files, FilesOf(steps, k)) && Made(items, info, aux, made, dinds) && |dinds| == ResizesIn(steps, k)
  }

  lemma NothingReached(items: seq<Item>, info: Info, aux: Aux, steps: seq<Step>, keys: seq<Key>)
    requires InitKeys(keys)
    ensures Reached(items, info, aux, steps, 0, [], [], []) && Tabled(keys, {}, [])
  {
    hide TablesFor, TablesIn;
  }

  lemma FirstResize(items: seq<Item>, info: Info, aux: Aux, steps: seq<Step>, k: nat, files: seq<Filed>,
                    made: seq<Tables>, dinds: seq<u32>)
    requires info.blockSize > 0 && StepsOk(steps, aux, info.blockSize) && k < |steps|
    requires Reached(items, info, aux, steps, k, files, made, dinds)
    ensures steps[k].ResizeInode? ==> dinds == []
  {
    StepAt(steps, aux, info.blockSize, k);
    if steps[k].ResizeInode? {
      NoResizes(steps, k);
    }
    hide StepsOk, Contents, Made, FilesOf;
  }

  lemma {:induction false} NoResizes(steps: seq<Step>, k: nat)
    requires k <= |steps| && forall j :: 0 <= j < k ==> !steps[j].ResizeInode?
    ensures ResizesIn(steps, k) == 0
  {
    if k > 0 {
      NoResizes(steps, k - 1);
    }
  }

  lemma ReachedMore(before: seq<Item>, items: seq<Item>, info: Info, aux: Aux, steps: seq<Step>, k: nat, files: seq<Filed>,
                    made: seq<Tables>, dinds: seq<u32>, newFiles: seq<Filed>, newMade: seq<Tables>, newDinds: seq<u32>,
                    ends: bool)
    requires info.blockSize > 0 && StepsOk(steps, aux, info.blockSize) && k < |steps|
    requires Reached(before, info, aux, steps, k, files, made, dinds)
    requires Grows(before, items, info.blockSize, info.len, ends) && Made(items, info, aux, newMade, newDinds)
    requires |newFiles| == (if steps[k].File? then 1 else 0) && (steps[k].File? ==> newFiles[0].b == steps[k].b)
    requires |newDinds| == (if steps[k].ResizeInode? then 1 else 0)
    ensures Reached(items, info, aux, steps, k + 1, files + newFiles, made + newMade, dinds + newDinds)
  {
    StepAt(steps, aux, info.blockSize, k);
    MadeStays(before, items, info, aux, made, dinds, info.blockSize, info.len, ends);
    MadeBoth(items, info, aux, made, dinds, newMade, newDinds);
    if steps[k].File? {
      ContentsMore(files, FilesOf(steps, k), newFiles[0]);
      assert newFiles == [newFiles[0]];
    } else {
      assert files + newFiles == files && FilesOf(steps, k) + [] == FilesOf(steps, k);
    }
    hide StepsOk, Made, Grows, Contents, FilesOf, ResizesIn;
  }

  lemma MadeBoth(items: seq<Item>, info: Info, aux: Aux, made: seq<Tables>, dinds: seq<u32>, newMade: seq<Tables>,
                 newDinds: seq<u32>)
    requires Made(items, info, aux, made, dinds) && Made(items, info, aux, newMade, newDinds)
    ensures Made(items, info, aux, made + newMade, dinds + newDinds)
  {
    hide TablesFor, TablesIn;
  }

  lemma EndsSoFar(before: seq<Item>, items: seq<Item>, bs: nat, len: nat, ends: bool, rest: bool, all: bool)
    requires Grows(before, items, bs, len, ends) && (all <==> !ends && rest)
    ensures NoFileAtEnd(items, bs, len) && rest <==> NoFileAtEnd(before, bs, len) && all
  {
    hide NoFileAtEnd;
  }

  /** All steps in order, up to the first that cannot be taken. */
  method Populate(a: Allocator, q: Queue, info: Info, aux: Aux, steps: seq<Step>, tables: seq<seq<byte>>,
                  ghost keysIn: seq<Key>)
    returns (ok: bool, roots: seq<seq<byte>>, dinds: seq<u32>, ghost keys: seq<Key>, ghost live: seq<Run>,
             ghost files: seq<Filed>, ghost made: seq<Tables>)
    requires Building(a, q, info, aux, keysIn, [], [], []) && InitKeys(keysIn) && 1024 <= info.blockSize <= 4096
    requires StepsOk(steps, aux, info.blockSize) && aux.inodeTableBlocks > 0 && aux.groups > 0
    requires info.blockSize == 4 * aux.blocksPerInd && aux.bgDescReserveBlocks <= aux.blocksPerInd
    requires |tables| == aux.groups
    requires forall i :: 0 <= i < |tables| ==> |tables[i]| == aux.inodeTableBlocks * info.blockSize
    modifies a.Repr(), q, q.nodes
    ensures ok <==> AllWork(info, aux, old(a.View()), steps, 0)
    ensures ok ==> Building(a, q, info, aux, keys, live, files, roots)
    ensures ok ==> Reached(q.Items(), info, aux, steps, |steps|, files, made, dinds)
    ensures ok ==> (NoFileAtEnd(q.Items(), info.blockSize, info.len) <==>
                      NoFileAtEnd(old(q.Items()), info.blockSize, info.len) && NoneEnds(info, aux, old(a.View()), steps, 0))
    ensures ok ==> Kept(old(q.Items()), q.Items()) && TablesQueued(q.Items(), info, aux, tables, steps)
    ensures ok ==> a.View() == AfterAll(info, aux, old(a.View()), steps, 0)
    ensures forall n :: n in q.nodes ==> n in old(q.nodes) || fresh(n)
  {
    hide *;
    ok, roots, dinds, keys, live, files, made := true, [], [], keysIn, [], [], [];
    var tabled: set<nat> := {};
    NothingReached(q.Items(), info, aux, steps, keysIn);
    NothingNeeded(q.Items(), info, aux, tables, steps);
    KeptSame(q.Items());
    var k := 0;
    while k < |steps|
      invariant 0 <= k <= |steps| && Building(a, q, info, aux, keys, live, files, roots) && Tabled(keys, tabled, dinds)
      invariant Reached(q.Items(), info, aux, steps, k, files, made, dinds)
      invariant AllWork(info, aux, a.View(), steps, k) <==> AllWork(info, aux, old(a.View()), steps, 0)
      invariant AfterAll(info, aux, a.View(), steps, k) == AfterAll(info, aux, old(a.View()), steps, 0)
      invariant Kept(old(q.Items()), q.Items())
      invariant TablesHeld(q.Items(), info, aux, tables, tabled) && Needed(steps, k, tabled)
      invariant NoFileAtEnd(q.Items(), info.blockSize, info.len) && NoneEnds(info, aux, a.View(), steps, k) <==>
                NoFileAtEnd(old(q.Items()), info.blockSize, info.len) && NoneEnds(info, aux, old(a.View()), steps, 0)
      invariant forall j :: 0 <= j < |q.nodes| ==> fresh(q.nodes[j]) || q.nodes[j] in old(q.nodes)
    {
      ghost var gs, before := a.View(), q.Items();
      StepAt(steps, aux, info.blockSize, k);
      WorkAt(info, aux, gs, steps, k);
      FirstResize(before, info, aux, steps, k, files, made, dinds);
      var newRoots, newDinds;
      ghost var newFiles, newMade;
      ghost var filesIn, rootsIn, dindsIn, tabledIn := files, roots, dinds, tabled;
      ok, tabled, newRoots, newDinds, keys, live, newFiles, newMade :=
        TakeStep(a, q, info, aux, steps[k], tables, tabled, dindsIn, keys, live, filesIn, rootsIn);
      if !ok {
        return;
      }
      ghost var ends := StepEnds(info, gs, steps[k]);
      ReachedMore(before, q.Items(), info, aux, steps, k, files, made, dinds, newFiles, newMade, newDinds, ends);
      EndsSoFar(before, q.Items(), info.blockSize, info.len, ends, NoneEnds(info, aux, a.View(), steps, k + 1),
                NoneEnds(info, aux, gs, steps, k));
      KeptStill(old(q.Items()), before, q.Items(), info.blockSize, info.len, ends);
      NeededMore(steps, k, tabledIn, tabled);
      files, roots, made, dinds := files + newFiles, roots + newRoots, made + newMade, dinds + newDinds;
      k := k + 1;
    }
    WorkAt(info, aux, a.View(), steps, k);
    AllNeeded(q.Items(), info, aux, tables, steps, tabled);
  }

  // ----- writing and reading back -----

  lemma {:induction false} PassesEach(ws: seq<ImageWrites.Write>, items: seq<Item>, k: nat, last: u32, bs: nat, len: nat,
                                      sparse: bool, j: nat)
    requires bs > 0 && AllBacked(items) && k <= j < |items| && QueuePasses(ws, items, k, last, bs, len, sparse)
    ensures items[j].source.FileChunk? ==> ItemWrite(items[j], bs).off + |ItemWrite(items[j], bs).data| != len
    decreases |items| - k
  {
    hide ImageWrites.Passes, LastBlock, ItemWrite;
    if k < j {
      PassesEach(ws + [ItemWrite(items[k], bs)], items, k + 1, LastBlock(items[k], bs), bs, len, sparse, j);
    }
  }

  /** The parameters of a device: block size, first data block, and lengths that the format can carry. */
  ghost predicate Device(info: Info, aux: Aux, sb: seq<byte>, bgDesc: seq<byte>) {
    && Buildable(info, aux) && info.blockSize in {1024, 2048, 4096} && aux.groups > 0
    && aux.firstDataBlock == (if info.blockSize > 1024 then 0 else 1)
    && Divides(info.blockSize, info.len) && S.Bytes(aux.lenBlocks, info.blockSize) <= info.len
    && Div(info.len, info.blockSize) < TWO32 && 2 * aux.lenBlocks + 8 < OutputFiles.INT_MAX
    && |sb| == 1024 && |bgDesc| == S.Bytes(aux.bgDescBlocks, info.blockSize) && aux.bgDescBlocks > 0
    && info.blockSize == 4 * aux.blocksPerInd && aux.bgDescReserveBlocks <= aux.blocksPerInd
  }

  lemma DeviceParts(info: Info, aux: Aux, sb: seq<byte>, bgDesc: seq<byte>)
    requires Device(info, aux, sb, bgDesc)
    ensures Buildable(info, aux) && 1024 <= info.blockSize <= 4096 && IsPow2(info.blockSize) && info.len > 0
    ensures HeadEnd(aux) <= aux.lenBlocks && |bgDesc| + info.blockSize <= 0x7FFF_FFFF
    ensures 2 * aux.lenBlocks + 8 < 0x7FFF_FFFF && |sb| == 1024 && |bgDesc| == S.Bytes(aux.bgDescBlocks, info.blockSize)
    ensures aux.firstDataBlock == (if info.blockSize > 1024 then 0 else 1)
    ensures S.Bytes(aux.lenBlocks, info.blockSize) <= info.len && Divides(info.blockSize, info.len)
    ensures Div(info.len, info.blockSize) < 0x1_0000_0000
    ensures info.blockSize == 4 * aux.blocksPerInd && aux.bgDescReserveBlocks <= aux.blocksPerInd && aux.groups > 0
  {
    var bs: nat := info.blockSize;
    FirstHeader(info, aux);
    Sizes(info, aux, 0);
    PowersOfTwo();
    GroupBytes(info.blocksPerGroup, bs);
    MulGap(aux.bgDescBlocks, info.blocksPerGroup, bs);
    MulGap(0, aux.lenBlocks, bs);
    hide Sound, FirstBlock, GroupHeader, GroupSize, HasSuperBlock, IsPow2, Div, Divides;
  }

  lemma PowersOfTwo()
    ensures IsPow2(1024) && IsPow2(2048) && IsPow2(4096)
  {
    Pow2Values();
    Pow2Add(8, 2);
    Pow2Add(8, 3);
    Pow2Add(8, 4);
    assert Pow2(2) == 4 && Pow2(3) == 8 && Pow2(4) == 16;
    hide Pow2;
    assert IsPow2(Pow2(10)) && IsPow2(Pow2(11)) && IsPow2(Pow2(12));
  }

  /** The queue of a filesystem passes every check of the writer exactly when no chunk of a file ends at the very end of
      the image. */
  lemma {:induction false} WholeQueuePasses(info: Info, aux: Aux, keys: seq<Key>, gs: seq<Group>, live: seq<Run>,
                                            items: seq<Item>, sb: seq<byte>, bgDesc: seq<byte>)
    requires Device(info, aux, sb, bgDesc) && Buildable(info, aux) && Laid(info, aux, keys, gs, live, items) && Sorted(items)
    requires |sb| == 1024 && info.blockSize > 0
    ensures AllBacked(items)
    ensures forall sparse :: ImagePasses(sb, bgDesc, aux.firstDataBlock, items, info.blockSize, info.len, sparse)
                             <==> NoFileAtEnd(items, info.blockSize, info.len)
    ensures NoFileAtEnd(items, info.blockSize, info.len) ==>
              ImageWrites.WellPlaced(AllWrites(sb, bgDesc, aux.firstDataBlock, items, info.blockSize), info.blockSize, info.len)
  {
    hide *;
    DeviceParts(info, aux, sb, bgDesc);
    QueueInside(info, aux, keys, gs, live, items, info.len);
    HeadsInFront(info, aux, keys, gs, live, items, sb, bgDesc, info.len);
    if NoFileAtEnd(items, info.blockSize, info.len) {
      QueueReachesImage(sb, bgDesc, aux.firstDataBlock, items, info.blockSize, info.len);
    } else {
      forall sparse
        ensures !ImagePasses(sb, bgDesc, aux.firstDataBlock, items, info.blockSize, info.len, sparse)
      {
        FailsAtEnd(sb, bgDesc, aux.firstDataBlock, items, info.blockSize, info.len, sparse);
      }
    }
  }

  lemma {:induction false} FailsAtEnd(sb: seq<byte>, bgDesc: seq<byte>, first: nat, items: seq<Item>, bs: nat, len: nat,
                                      sparse: bool)
    requires |sb| == 1024 && AllBacked(items) && bs > 0 && !NoFileAtEnd(items, bs, len)
    ensures !ImagePasses(sb, bgDesc, first, items, bs, len, sparse)
  {
    hide ItemWrite, QueuePasses, HeadWrites, Admits, Divides, EndsAt;
    var x :| x in items && EndsAt(x, bs, len);
    var j :| 0 <= j < |items| && items[j] == x;
    EndsIs(items[j], bs, len);
    if ImagePasses(sb, bgDesc, first, items, bs, len, sparse) {
      PassesEach(HeadWrites(sb, bgDesc, first, bs), items, 0, 0, bs, len, sparse, j);
    }
  }

  /** Every file of a written filesystem comes back through its own tree. */
  lemma {:induction false} FilesReadBack(info: Info, aux: Aux, items: seq<Item>, files: seq<Filed>, roots: seq<seq<byte>>,
                                         sb: seq<byte>, bgDesc: seq<byte>, k: nat)
    requires |sb| == 1024 && info.blockSize > 0 && AllBacked(items) && Held(items, files, info.blockSize, roots) && k < |files|
    requires ImageWrites.WellPlaced(AllWrites(sb, bgDesc, aux.firstDataBlock, items, info.blockSize), info.blockSize, info.len)
    ensures k < |roots|
    ensures TreeReads(roots[k], ImageWrites.FlatImage(AllWrites(sb, bgDesc, aux.firstDataBlock, items, info.blockSize), info.len),
                      info.blockSize, files[k].b.data)
  {
    var bs: nat := info.blockSize;
    assert FileIn(items, files[k], bs, roots[k]);
    WritesAre(sb, bgDesc, aux.firstDataBlock, items, bs);
    FileInParts(items, files[k], bs, roots[k]);
    hide *;
    FileReadsBack(files[k].kept, files[k].regions, bs, files[k].b, items, HeadWrites(sb, bgDesc, aux.firstDataBlock, bs), info.len);
  }

  lemma FileInParts(items: seq<Item>, f: Filed, bs: nat, root: seq<byte>)
    requires FileIn(items, f, bs, root)
    ensures E.BlocksFit(f.kept.runs) && Narrow(f.kept.runs) && Readable(f.kept, f.regions, bs)
    ensures |f.b.data| <= S.Bytes(S.Prefix(f.kept.runs, |f.kept.runs|), bs) && E.LeafNumber(f.kept) < 0x1_0000_0000
    ensures HoldsFile(items, f.kept, f.regions, bs, f.b) && root == RootOf(f.kept.runs, E.LeafNumber(f.kept), f.regions)
  {
    hide Narrow, Readable, S.Bytes, S.Prefix, RootOf, E.LeafNumber;
  }

  lemma WritesAre(sb: seq<byte>, bgDesc: seq<byte>, firstDataBlock: nat, items: seq<Item>, bs: nat)
    requires |sb| == 1024 && AllBacked(items)
    ensures AllWrites(sb, bgDesc, firstDataBlock, items, bs) == HeadWrites(sb, bgDesc, firstDataBlock, bs) + ItemWrites(items, bs)
  {}

  /** How a whole build ends: a step failed, a file ends at the end of the image, or the image was written. */
  datatype Built = StepFailed | FileAtEnd | Built(image: Simg2Img.Outcome)

  /** Every file reads back from the image. */
  ghost predicate AllRead(image: seq<byte>, roots: seq<seq<byte>>, datas: seq<seq<byte>>, bs: nat)
    requires bs > 0
  {
    |roots| == |datas| && forall k :: 0 <= k < |datas| ==> TreeReads(roots[k], image, bs, datas[k])
  }

  lemma ReadAll(info: Info, aux: Aux, items: seq<Item>, files: seq<Filed>, roots: seq<seq<byte>>, datas: seq<seq<byte>>,
                sb: seq<byte>, bgDesc: seq<byte>)
    requires |sb| == 1024 && info.blockSize > 0 && AllBacked(items) && Held(items, files, info.blockSize, roots)
    requires Contents(files, datas)
    requires ImageWrites.WellPlaced(AllWrites(sb, bgDesc, aux.firstDataBlock, items, info.blockSize), info.blockSize, info.len)
    ensures AllRead(ImageWrites.FlatImage(AllWrites(sb, bgDesc, aux.firstDataBlock, items, info.blockSize), info.len), roots,
                    datas, info.blockSize)
  {
    hide FileIn, TreeReads, AllWrites, ImageWrites.FlatImage, ImageWrites.WellPlaced, AllBacked;
    forall k | 0 <= k < |datas|
      ensures TreeReads(roots[k],
                        ImageWrites.FlatImage(AllWrites(sb, bgDesc, aux.firstDataBlock, items, info.blockSize), info.len),
                        info.blockSize, datas[k])
    {
      FilesReadBack(info, aux, items, files, roots, sb, bgDesc, k);
    }
  }

  lemma Writable(info: Info, aux: Aux, keys: seq<Key>, gs: seq<Group>, live: seq<Run>, q: Queue, sb: seq<byte>,
                 bgDesc: seq<byte>)
    requires Device(info, aux, sb, bgDesc) && Buildable(info, aux) && Laid(info, aux, keys, gs, live, q.Items()) && q.Valid()
    ensures 1024 <= info.blockSize <= 4096 && IsPow2(info.blockSize) && info.len > 0 && |sb| == 1024
    ensures AllBacked(q.Items()) && ItemsSized(q.Items(), info.blockSize)
    ensures |bgDesc| + info.blockSize <= OutputFiles.INT_MAX && info.blockSize == 4 * aux.blocksPerInd
    ensures 2 * |q.Items()| + 4 < OutputFiles.INT_MAX
    ensures Divides(info.blockSize, info.len) && Div(info.len, info.blockSize) < TWO32
    ensures 2 * |AllWrites(sb, bgDesc, aux.firstDataBlock, q.Items(), info.blockSize)| < OutputFiles.INT_MAX
    ensures ImageWrites.Sized(AllWrites(sb, bgDesc, aux.firstDataBlock, q.Items(), info.blockSize), info.blockSize)
    ensures Sorted(q.Items())
  {
    DeviceParts(info, aux, sb, bgDesc);
    QueueInOrder(q);
    assert OutputFiles.INT_MAX == 0x7FFF_FFFF && TWO32 == 0x1_0000_0000;
    hide *;
    QueueSized(info, aux, keys, gs, live, q.Items());
    QueueCount(info, aux, keys, gs, live, q.Items());
    WritesSized(sb, bgDesc, aux.firstDataBlock, q.Items(), info.blockSize);
    WritesCount(sb, bgDesc, aux.firstDataBlock, q.Items(), info.blockSize);
  }

  lemma WritesCount(sb: seq<byte>, bgDesc: seq<byte>, first: nat, items: seq<Item>, bs: nat)
    requires |sb| == 1024 && AllBacked(items)
    ensures |AllWrites(sb, bgDesc, first, items, bs)| == |items| + 2
  {}

  lemma BufferIs()
    ensures FIRST_BLOCK_BUFFER == 4096
  {}

  /** The resize inode reads back from the image. */
  ghost predicate ResizesRead(image: seq<byte>, info: Info, aux: Aux, dinds: seq<u32>) {
    forall k :: 0 <= k < |dinds| ==> ResizeReads(image, info, aux, dinds[k])
  }

  lemma ResizeBack(info: Info, aux: Aux, items: seq<Item>, made: seq<Tables>, dinds: seq<u32>, sb: seq<byte>,
                   bgDesc: seq<byte>)
    requires |sb| == 1024 && info.blockSize > 0 && AllBacked(items) && Made(items, info, aux, made, dinds)
    requires info.blockSize == 4 * aux.blocksPerInd
    requires ImageWrites.WellPlaced(AllWrites(sb, bgDesc, aux.firstDataBlock, items, info.blockSize), info.blockSize, info.len)
    ensures ResizesRead(ImageWrites.FlatImage(AllWrites(sb, bgDesc, aux.firstDataBlock, items, info.blockSize), info.len),
                        info, aux, dinds)
  {
    WritesAre(sb, bgDesc, aux.firstDataBlock, items, info.blockSize);
    hide TablesFor, TablesIn, AllWrites, ImageWrites.FlatImage, ImageWrites.WellPlaced, AllBacked, ResizeReads, HeadWrites;
    forall k | 0 <= k < |dinds|
      ensures ResizeReads(ImageWrites.FlatImage(AllWrites(sb, bgDesc, aux.firstDataBlock, items, info.blockSize), info.len),
                          info, aux, dinds[k])
    {
      QueuedReads(items, info, aux, made[k], HeadWrites(sb, bgDesc, aux.firstDataBlock, info.blockSize), info.len);
    }
  }

  // ----- the headers in the image -----

  /** The blocks of the image from `block` on hold these bytes. */
  ghost predicate Shows(image: seq<byte>, bs: nat, block: int, data: seq<byte>) {
    0 <= block * bs && block * bs + |data| <= |image| && image[block * bs..block * bs + |data|] == data
  }

  /** The blocks of the superblock, the descriptors and the reserved descriptors at the front of a group. */
  ghost function Front(info: Info, aux: Aux, i: nat): nat {
    if HasSuperBlock(info.sparse, i) then 1 + aux.bgDescBlocks + aux.bgDescReserveBlocks else 0
  }

  /** A group has its own bitmaps, and a backup group its copies of the superblock's block and of the descriptors. */
  ghost predicate GroupRead(image: seq<byte>, info: Info, aux: Aux, i: nat, block: seq<byte>, bgDesc: seq<byte>,
                            bitmaps: seq<byte>)
  {
    var bs, first := info.blockSize, aux.firstDataBlock + i * info.blocksPerGroup;
    && Shows(image, bs, first + Front(info, aux, i), bitmaps)
    && (0 < i && HasSuperBlock(info.sparse, i) ==> Shows(image, bs, first, block) && Shows(image, bs, first + 1, bgDesc))
  }

  /** A group has its own inode table behind its bitmaps. */
  ghost predicate TableRead(image: seq<byte>, info: Info, aux: Aux, i: nat, table: seq<byte>) {
    Shows(image, info.blockSize, aux.firstDataBlock + i * info.blocksPerGroup + Front(info, aux, i) + 2, table)
  }

  /** The headers of all groups, and the inode tables the run needs, read back from the image. */
  ghost predicate HeadersRead(image: seq<byte>, info: Info, aux: Aux, block: seq<byte>, bgDesc: seq<byte>,
                              bitmaps: seq<seq<byte>>, tables: seq<seq<byte>>, steps: seq<Step>)
  {
    && (forall i :: 0 <= i < |bitmaps| ==> GroupRead(image, info, aux, i, block, bgDesc, bitmaps[i]))
    && (forall k :: 0 <= k < |steps| && steps[k].Inode? ==>
          steps[k].group < |tables| && TableRead(image, info, aux, steps[k].group, tables[steps[k].group]))
  }

  /** All of these are in the queue. */
  ghost predicate HeadersHeld(items: seq<Item>, info: Info, aux: Aux, block: seq<byte>, bgDesc: seq<byte>,
                              bitmaps: seq<seq<byte>>, tables: seq<seq<byte>>, steps: seq<Step>)
  {
    && |bitmaps| == aux.groups && |tables| == aux.groups && BitmapsHeld(items, info, aux, bitmaps, |bitmaps|)
    && CopiesHeld(items, info, aux, block, bgDesc, aux.groups) && TablesQueued(items, info, aux, tables, steps)
  }

  /** What the image of a written queue is. */
  ghost predicate WrittenFrom(image: seq<byte>, items: seq<Item>, heads: seq<ImageWrites.Write>, bs: nat, len: nat) {
    && AllBacked(items) && bs > 0 && ImageWrites.WellPlaced(heads + ItemWrites(items, bs), bs, len)
    && image == ImageWrites.FlatImage(heads + ItemWrites(items, bs), len)
  }

  lemma PartShown(image: seq<byte>, items: seq<Item>, heads: seq<ImageWrites.Write>, info: Info, aux: Aux, k: Key,
                  data: seq<byte>, block: int)
    requires WrittenFrom(image, items, heads, info.blockSize, info.len) && PartHeld(items, info, aux, k, data)
    requires block == AreaOf(info, aux, k).block
    ensures Shows(image, info.blockSize, block, data)
  {
    hide AreaOf, ItemWrites, ImageWrites.WellPlaced, ImageWrites.FlatImage;
    var b: u32 := block;
    MulNonNegative(b, info.blockSize);
    ItemAt(items, Item(b, Memory(data)), info.blockSize, heads, info.len);
  }

  lemma FirstIs(info: Info, aux: Aux, i: nat)
    ensures FirstBlock(info, aux, i) == aux.firstDataBlock + i * info.blocksPerGroup
  {}

  lemma {:induction false} GroupShown(image: seq<byte>, items: seq<Item>, heads: seq<ImageWrites.Write>, info: Info, aux: Aux,
                                      i: nat, block: seq<byte>, bgDesc: seq<byte>, bitmaps: seq<byte>)
    requires WrittenFrom(image, items, heads, info.blockSize, info.len) && Buildable(info, aux) && i < aux.groups
    requires PartHeld(items, info, aux, Key(i, Bitmaps), bitmaps)
    requires 0 < i && HasSuperBlock(info.sparse, i) ==>
               PartHeld(items, info, aux, Key(i, SuperBlock), block) && PartHeld(items, info, aux, Key(i, Descriptors), bgDesc)
    ensures GroupRead(image, info, aux, i, block, bgDesc, bitmaps)
  {
    hide PartHeld, HasSuperBlock, FirstBlock, Buildable, AreaOf, Shows, WrittenFrom;
    var super := HasSuperBlock(info.sparse, i);
    FirstIs(info, aux, i);
    var first := FirstBlock(info, aux, i);
    BitmapsPlace(info, aux, i, super);
    PartShown(image, items, heads, info, aux, Key(i, Bitmaps), bitmaps, first + Front(info, aux, i));
    if 0 < i && super {
      CopiesPlace(info, aux, i);
      PartShown(image, items, heads, info, aux, Key(i, SuperBlock), block, first);
      PartShown(image, items, heads, info, aux, Key(i, Descriptors), bgDesc, first + 1);
    }
  }

  lemma {:induction false} TableShown(image: seq<byte>, items: seq<Item>, heads: seq<ImageWrites.Write>, info: Info, aux: Aux,
                                      i: nat, table: seq<byte>)
    requires WrittenFrom(image, items, heads, info.blockSize, info.len) && Buildable(info, aux) && i < aux.groups
    requires PartHeld(items, info, aux, Key(i, InodeTable), table)
    ensures TableRead(image, info, aux, i, table)
  {
    hide PartHeld, HasSuperBlock, FirstBlock, Buildable, AreaOf, Shows, WrittenFrom;
    FirstIs(info, aux, i);
    TablePlace(info, aux, i, HasSuperBlock(info.sparse, i));
    PartShown(image, items, heads, info, aux, Key(i, InodeTable), table, FirstBlock(info, aux, i) + Front(info, aux, i) + 2);
  }

  lemma GroupHeld(items: seq<Item>, info: Info, aux: Aux, block: seq<byte>, bgDesc: seq<byte>, bitmaps: seq<seq<byte>>,
                  tables: seq<seq<byte>>, steps: seq<Step>, i: nat)
    requires HeadersHeld(items, info, aux, block, bgDesc, bitmaps, tables, steps) && i < |bitmaps|
    ensures i < aux.groups && PartHeld(items, info, aux, Key(i, Bitmaps), bitmaps[i])
    ensures 0 < i && HasSuperBlock(info.sparse, i) ==>
              PartHeld(items, info, aux, Key(i, SuperBlock), block) && PartHeld(items, info, aux, Key(i, Descriptors), bgDesc)
  {
    hide PartHeld, HasSuperBlock, TablesQueued;
  }

  lemma TableHeld(items: seq<Item>, info: Info, aux: Aux, block: seq<byte>, bgDesc: seq<byte>, bitmaps: seq<seq<byte>>,
                  tables: seq<seq<byte>>, steps: seq<Step>, k: nat)
    requires HeadersHeld(items, info, aux, block, bgDesc, bitmaps, tables, steps) && k < |steps| && steps[k].Inode?
    ensures steps[k].group < |tables| == aux.groups
    ensures PartHeld(items, info, aux, Key(steps[k].group, InodeTable), tables[steps[k].group])
  {
    assert TableQueued(items, info, aux, tables, steps[k].group);
    hide PartHeld, HasSuperBlock, BitmapsHeld, CopiesHeld;
  }

  lemma {:induction false} HeadersBack(image: seq<byte>, items: seq<Item>, heads: seq<ImageWrites.Write>, info: Info, aux: Aux,
                                       block: seq<byte>, bgDesc: seq<byte>, bitmaps: seq<seq<byte>>, tables: seq<seq<byte>>,
                                       steps: seq<Step>)
    requires WrittenFrom(image, items, heads, info.blockSize, info.len) && Buildable(info, aux)
    requires HeadersHeld(items, info, aux, block, bgDesc, bitmaps, tables, steps)
    ensures HeadersRead(image, info, aux, block, bgDesc, bitmaps, tables, steps)
  {
    hide HeadersHeld, WrittenFrom, Buildable, GroupRead, TableRead;
    forall i | 0 <= i < |bitmaps|
      ensures GroupRead(image, info, aux, i, block, bgDesc, bitmaps[i])
    {
      GroupHeld(items, info, aux, block, bgDesc, bitmaps, tables, steps, i);
      GroupShown(image, items, heads, info, aux, i, block, bgDesc, bitmaps[i]);
    }
    forall k | 0 <= k < |steps| && steps[k].Inode?
      ensures steps[k].group < |tables| && TableRead(image, info, aux, steps[k].group, tables[steps[k].group])
    {
      TableHeld(items, info, aux, block, bgDesc, bitmaps, tables, steps, k);
      TableShown(image, items, heads, info, aux, steps[k].group, tables[steps[k].group]);
    }
  }

  /** write_ext4_image and simg2img one after the other. */
  method WriteAndRead(q: Queue, info: Info, aux: Aux, sb: seq<byte>, bgDesc: seq<byte>, ghost keys: seq<Key>,
                      ghost gs: seq<Group>, ghost live: seq<Run>, ghost files: seq<Filed>, ghost roots: seq<seq<byte>>,
                      ghost datas: seq<seq<byte>>, ghost made: seq<Tables>, ghost dinds: seq<u32>,
                      ghost block: seq<byte>, ghost bitmaps: seq<seq<byte>>, ghost tables: seq<seq<byte>>,
                      ghost steps: seq<Step>)
    returns (built: Built)
    requires Device(info, aux, sb, bgDesc) && Buildable(info, aux) && Laid(info, aux, keys, gs, live, q.Items()) && q.Valid()
    requires info.blockSize > 0 && Held(q.Items(), files, info.blockSize, roots) && Contents(files, datas)
    requires Made(q.Items(), info, aux, made, dinds)
    requires HeadersHeld(q.Items(), info, aux, block, bgDesc, bitmaps, tables, steps)
    ensures !built.StepFailed? && (built.Built? <==> NoFileAtEnd(q.Items(), info.blockSize, info.len))
    ensures built.Built? ==>
              built.image.Image? && |built.image.data| == info.len && AllRead(built.image.data, roots, datas, info.blockSize)
              && ResizesRead(built.image.data, info, aux, dinds)
              && HeadsRead(built.image.data, sb, bgDesc, aux.firstDataBlock, info.blockSize)
              && HeadersRead(built.image.data, info, aux, block, bgDesc, bitmaps, tables, steps)
  {
    hide *;
    Writable(info, aux, keys, gs, live, q, sb, bgDesc);
    WholeQueuePasses(info, aux, keys, gs, live, q.Items(), sb, bgDesc);
    ghost var items := q.Items();
    BufferIs();
    var ok, image := WriteAndExpand(q, sb, bgDesc, aux.firstDataBlock, info.blockSize, info.len);
    if !ok {
      return FileAtEnd;
    }
    ghost var ws := AllWrites(sb, bgDesc, aux.firstDataBlock, items, info.blockSize);
    ImageWrites.FlatImageLength(ws, info.blockSize, info.len);
    ReadAll(info, aux, items, files, roots, datas, sb, bgDesc);
    ResizeBack(info, aux, items, made, dinds, sb, bgDesc);
    WrittenIs(image.data, items, info, aux, sb, bgDesc);
    HeadersBack(image.data, items, HeadWrites(sb, bgDesc, aux.firstDataBlock, info.blockSize), info, aux, block, bgDesc, bitmaps,
                tables, steps);
    built := Built(image);
  }

  lemma WrittenIs(image: seq<byte>, items: seq<Item>, info: Info, aux: Aux, sb: seq<byte>, bgDesc: seq<byte>)
    requires |sb| == 1024 && info.blockSize > 0 && AllBacked(items)
    requires ImageWrites.WellPlaced(AllWrites(sb, bgDesc, aux.firstDataBlock, items, info.blockSize), info.blockSize, info.len)
    requires image == ImageWrites.FlatImage(AllWrites(sb, bgDesc, aux.firstDataBlock, items, info.blockSize), info.len)
    ensures WrittenFrom(image, items, HeadWrites(sb, bgDesc, aux.firstDataBlock, info.blockSize), info.blockSize, info.len)
  {
    WritesAre(sb, bgDesc, aux.firstDataBlock, items, info.blockSize);
    hide AllWrites, HeadWrites, ItemWrites, ImageWrites.WellPlaced, ImageWrites.FlatImage, AllBacked;
  }

  /** The buffers of the headers have the sizes they are allocated with. */
  ghost predicate Buffers(info: Info, aux: Aux, sb: seq<byte>, bgDesc: seq<byte>, bitmaps: seq<seq<byte>>,
                          tables: seq<seq<byte>>)
  {
    && |sb| == info.blockSize >= 1024 && Device(info, aux, sb[..1024], bgDesc) && aux.inodeTableBlocks > 0
    && |bitmaps| == |tables| == aux.groups
    && (forall i :: 0 <= i < |bitmaps| ==> |bitmaps[i]| == 2 * info.blockSize)
    && (forall i :: 0 <= i < |tables| ==> |tables[i]| == aux.inodeTableBlocks * info.blockSize)
  }

  lemma BuffersParts(info: Info, aux: Aux, sb: seq<byte>, bgDesc: seq<byte>, bitmaps: seq<seq<byte>>, tables: seq<seq<byte>>)
    requires Buffers(info, aux, sb, bgDesc, bitmaps, tables)
    ensures |sb| == info.blockSize && 1024 <= info.blockSize <= 4096 && Device(info, aux, sb[..1024], bgDesc)
    ensures Buildable(info, aux) && aux.inodeTableBlocks > 0 && aux.bgDescBlocks > 0 && aux.groups > 0
    ensures info.blockSize == 4 * aux.blocksPerInd && aux.bgDescReserveBlocks <= aux.blocksPerInd
    ensures |bgDesc| == aux.bgDescBlocks * info.blockSize && |bitmaps| == |tables| == aux.groups
    ensures forall i :: 0 <= i < |bitmaps| ==> |bitmaps[i]| == 2 * info.blockSize
    ensures forall i :: 0 <= i < |tables| ==> |tables[i]| == aux.inodeTableBlocks * info.blockSize
  {
    hide Buildable, Divides, Div;
  }

  /** A whole build and back: the allocator and the queue are set up, the headers are queued, every step of the run is
      taken, and the image is written and expanded. It fails exactly when a step cannot be taken, or a chunk of a file ends
      at the very end of the image; otherwise the reader accepts the image, each file comes back through its own tree, the
      resize inode from block to block, and the superblock, the descriptors, the bitmaps, the copies and the inode tables
      from their places in the groups. */
  method BuildAndExpand(info: Info, aux: Aux, sb: seq<byte>, bgDesc: seq<byte>, bitmaps: seq<seq<byte>>,
                        tables: seq<seq<byte>>, steps: seq<Step>)
    returns (built: Built, roots: seq<seq<byte>>, dinds: seq<u32>)
    requires Buffers(info, aux, sb, bgDesc, bitmaps, tables) && StepsOk(steps, aux, info.blockSize)
    ensures built.StepFailed? <==> !AllWork(info, aux, InitialGroups(info, aux), steps, 0)
    ensures !built.StepFailed? ==> (built.Built? <==> NoneEnds(info, aux, InitialGroups(info, aux), steps, 0))
    ensures built.Built? ==>
              && built.image.Image? && |built.image.data| == info.len
              && AllRead(built.image.data, roots, FilesOf(steps, |steps|), info.blockSize)
              && |dinds| == ResizesIn(steps, |steps|) && ResizesRead(built.image.data, info, aux, dinds)
              && HeadsRead(built.image.data, sb[..1024], bgDesc, aux.firstDataBlock, info.blockSize)
              && HeadersRead(built.image.data, info, aux, sb, bgDesc, bitmaps, tables, steps)
  {
    hide *;
    BuffersParts(info, aux, sb, bgDesc, bitmaps, tables);
    var q := new Queue();
    FreshLaid(info, aux);
    NothingQueuedYet(q.Items(), info.blockSize, info.len);
    ghost var gs := InitialGroups(info, aux);
    ghost var keys := QueueHeaders(q, info, aux, sb, bgDesc, bitmaps, gs);
    OnlyBuffersNeverEnd(q.Items(), info.blockSize, info.len);
    ghost var items := q.Items();
    var a := new Allocator(info, aux);
    var ok;
    ghost var live, files, made;
    ok, roots, dinds, keys, live, files, made := PopulateFresh(a, q, info, aux, steps, tables, keys, gs);
    if !ok {
      return StepFailed, roots, dinds;
    }
    BuildingParts(a, q, info, aux, keys, live, files, roots);
    ReachedParts(q.Items(), info, aux, steps, files, made, dinds);
    HeadersKept(items, q.Items(), info, aux, sb, bgDesc, bitmaps, tables, steps);
    built := WriteAndRead(q, info, aux, sb[..1024], bgDesc, keys, a.View(), live, files, roots, FilesOf(steps, |steps|), made,
                          dinds, sb, bitmaps, tables, steps);
  }

  lemma HeadersKept(before: seq<Item>, items: seq<Item>, info: Info, aux: Aux, block: seq<byte>, bgDesc: seq<byte>,
                    bitmaps: seq<seq<byte>>, tables: seq<seq<byte>>, steps: seq<Step>)
    requires |bitmaps| == aux.groups && |tables| == aux.groups && BitmapsHeld(before, info, aux, bitmaps, |bitmaps|)
    requires CopiesHeld(before, info, aux, block, bgDesc, aux.groups) && Kept(before, items)
    requires TablesQueued(items, info, aux, tables, steps)
    ensures HeadersHeld(items, info, aux, block, bgDesc, bitmaps, tables, steps)
  {
    BitmapsStay(before, items, info, aux, bitmaps, |bitmaps|);
    CopiesStay(before, items, info, aux, block, bgDesc, aux.groups);
    hide BitmapsHeld, CopiesHeld, TablesQueued;
  }

  lemma NothingQueuedYet(items: seq<Item>, bs: nat, len: nat)
    requires items == []
    ensures OnlyBuffers(items) && NoFileAtEnd(items, bs, len)
  {}

  lemma ReachedParts(items: seq<Item>, info: Info, aux: Aux, steps: seq<Step>, files: seq<Filed>, made: seq<Tables>,
                     dinds: seq<u32>)
    requires Reached(items, info, aux, steps, |steps|, files, made, dinds)
    ensures Contents(files, FilesOf(steps, |steps|)) && Made(items, info, aux, made, dinds)
    ensures |dinds| == ResizesIn(steps, |steps|)
  {
    hide Contents, Made, FilesOf, ResizesIn;
  }

  lemma NothingHeld(items: seq<Item>, bs: nat)
    ensures Held(items, [], bs, [])
  {}

  method PopulateFresh(a: Allocator, q: Queue, info: Info, aux: Aux, steps: seq<Step>, tables: seq<seq<byte>>,
                       ghost keysIn: seq<Key>, ghost gs: seq<Group>)
    returns (ok: bool, roots: seq<seq<byte>>, dinds: seq<u32>, ghost keys: seq<Key>, ghost live: seq<Run>,
             ghost files: seq<Filed>, ghost made: seq<Tables>)
    requires a.Valid() && q.Valid() && a.n == info.blocksPerGroup && a.View() == gs && Buildable(info, aux)
    requires Laid(info, aux, keysIn, gs, [], q.Items()) && InitKeys(keysIn) && 1024 <= info.blockSize <= 4096
    requires StepsOk(steps, aux, info.blockSize) && aux.inodeTableBlocks > 0 && |tables| == aux.groups && aux.groups > 0
    requires info.blockSize == 4 * aux.blocksPerInd && aux.bgDescReserveBlocks <= aux.blocksPerInd
    requires forall i :: 0 <= i < |tables| ==> |tables[i]| == aux.inodeTableBlocks * info.blockSize
    requires NoFileAtEnd(q.Items(), info.blockSize, info.len)
    modifies a.Repr(), q, q.nodes
    ensures ok <==> AllWork(info, aux, gs, steps, 0)
    ensures ok ==> Building(a, q, info, aux, keys, live, files, roots)
    ensures ok ==> Reached(q.Items(), info, aux, steps, |steps|, files, made, dinds)
    ensures ok ==> (NoFileAtEnd(q.Items(), info.blockSize, info.len) <==> NoneEnds(info, aux, gs, steps, 0))
    ensures ok ==> Kept(old(q.Items()), q.Items()) && TablesQueued(q.Items(), info, aux, tables, steps)
    ensures ok ==> a.View() == AfterAll(info, aux, gs, steps, 0)
  {
    hide *;
    NothingHeld(q.Items(), info.blockSize);
    BuildingIs(a, q, info, aux, keysIn, [], [], []);
    ok, roots, dinds, keys, live, files, made := Populate(a, q, info, aux, steps, tables, keysIn);
  }
}
