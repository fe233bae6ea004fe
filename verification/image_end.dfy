/** Which files end at the very end of the image, told from the regions they are given. */
module ImageEnd {
  import opened Words
  import opened AllocatorSpec
  import opened ExtentsSpec
  import opened Extents
  import opened WriteQueue
  import opened FileReadBack
  import opened DeviceQueue
  import ExtentTree
  import FileLayout

  /** The chunk of region k comes from a file on disk and ends at the end of the image. */
  predicate ChunkEnds(runs: seq<Run>, k: nat, bs: nat, b: Backing, len: nat)
    requires k < |runs|
  {
    var from, to := Cap(runs, k, bs, |b.data|), Cap(runs, k + 1, bs, |b.data|);
    b.OnDisk? && from < |b.data| && runs[k].block * bs + (to - from) == len
  }

  ghost predicate NoChunkEnds(runs: seq<Run>, k: nat, bs: nat, b: Backing, len: nat)
    requires k <= |runs|
  {
    forall i :: 0 <= i < k ==> !ChunkEnds(runs, i, bs, b, len)
  }

  lemma PartEnds(runs: seq<Run>, k: nat, bs: nat, b: Backing, len: nat)
    requires k < |runs| && runs[k].block < TWO32 && Cap(runs, k, bs, |b.data|) < |b.data|
    ensures EndsAt(PartItem(runs, k, bs, b), bs, len) <==> ChunkEnds(runs, k, bs, b, len)
  {
    hide Cap;
  }

  lemma EndInserted(items: seq<Item>, x: Item, bs: nat, len: nat)
    ensures NoFileAtEnd(WriteQueue.Insert(items, x), bs, len) <==> NoFileAtEnd(items, bs, len) && !EndsAt(x, bs, len)
  {
    InsertedAre(items, x);
    hide WriteQueue.Insert, EndsAt;
  }

  lemma BufferNeverEnds(items: seq<Item>, block: u32, data: seq<byte>, bs: nat, len: nat)
    ensures NoFileAtEnd(WriteQueue.Insert(items, Item(block, Memory(data))), bs, len) <==> NoFileAtEnd(items, bs, len)
  {
    EndInserted(items, Item(block, Memory(data)), bs, len);
    hide WriteQueue.Insert, NoFileAtEnd;
  }

  lemma OnlyBuffersNeverEnd(items: seq<Item>, bs: nat, len: nat)
    requires OnlyBuffers(items)
    ensures NoFileAtEnd(items, bs, len)
  {}

  lemma ChunksMore(runs: seq<Run>, k: nat, bs: nat, b: Backing, len: nat)
    requires k < |runs|
    ensures NoChunkEnds(runs, k + 1, bs, b, len) <==> NoChunkEnds(runs, k, bs, b, len) && !ChunkEnds(runs, k, bs, b, len)
    ensures NoChunkEnds(runs, 0, bs, b, len)
    ensures !(Cap(runs, k, bs, |b.data|) < |b.data|) ==> !ChunkEnds(runs, k, bs, b, len)
  {
    hide Cap;
  }

  /** The chunks of a file add one to the end of the image exactly when one of its regions puts it there. */
  lemma {:induction false} QueuedEnds(items: seq<Item>, runs: seq<Run>, k: nat, bs: nat, b: Backing, len: nat)
    requires k <= |runs| && BlocksFit(runs)
    ensures NoFileAtEnd(Queued(items, runs, k, bs, b), bs, len)
       <==> NoFileAtEnd(items, bs, len) && NoChunkEnds(runs, k, bs, b, len)
  {
    hide *;
    if k == 0 {
      NothingQueued(items, runs, bs, b);
      NoneYet(runs, bs, b, len);
    } else {
      BlockFits(runs, k - 1);
      QueuedMore(items, runs, k - 1, bs, b);
      QueuedEnds(items, runs, k - 1, bs, b, len);
      ChunksMore(runs, k - 1, bs, b, len);
      if Cap(runs, k - 1, bs, |b.data|) < |b.data| {
        EndInserted(Queued(items, runs, k - 1, bs, b), PartItem(runs, k - 1, bs, b), bs, len);
        PartEnds(runs, k - 1, bs, b, len);
      }
    }
  }

  lemma NoneYet(runs: seq<Run>, bs: nat, b: Backing, len: nat)
    ensures NoChunkEnds(runs, 0, bs, b, len)
  {}

  lemma LeafNeverEnds(items: seq<Item>, leaf: u32, runs: seq<Run>, regions: nat, bs: nat, len: nat)
    ensures NoFileAtEnd(WithLeaf(items, leaf, runs, regions, bs), bs, len) <==> NoFileAtEnd(items, bs, len)
  {
    if leaf != 0 {
      BufferNeverEnds(items, leaf, ExtentTree.LeafBlock(runs, regions, bs), bs, len);
    }
    hide NoFileAtEnd, WriteQueue.Insert, ExtentTree.LeafBlock;
  }

  /** A file whose allocation leaves these regions to it ends at the end of the image. */
  ghost predicate FileEnds(gs: seq<Group>, blocks: nat, bs: nat, b: Backing, len: nat)
    requires AllocatorSpec.DoAllocate(gs, blocks + 1).Done?
  {
    var runs := KeptFor(gs, blocks).runs;
    !NoChunkEnds(runs, |runs|, bs, b, len)
  }

  /** Mapping a file puts a chunk at the end of the image exactly when its regions do. */
  lemma {:induction false} MappedEnds(gs: seq<Group>, blocks: nat, bs: nat, b: Backing, before: seq<Item>,
                                      after: seq<Group>, items: seq<Item>, root: seq<byte>, len: nat)
    requires QueuedFor(gs, blocks, bs, b, before, after, items, root, false)
    ensures AllocatorSpec.DoAllocate(gs, blocks + 1).Done?
    ensures NoFileAtEnd(items, bs, len) <==> NoFileAtEnd(before, bs, len) && !FileEnds(gs, blocks, bs, b, len)
  {
    hide *;
    FileLayout.QueuedForParts(gs, blocks, bs, b, before, after, items, root);
    var kept, regions := KeptFor(gs, blocks), |AllocatorSpec.DoAllocate(gs, blocks + 1).runs|;
    var leaf: u32 := LeafNumber(kept);
    QueuedEnds(WithLeaf(before, leaf, kept.runs, regions, bs), kept.runs, |kept.runs|, bs, b, len);
    LeafNeverEnds(before, leaf, kept.runs, regions, bs, len);
    EndsWhen(gs, blocks, bs, b, len);
  }

  lemma EndsWhen(gs: seq<Group>, blocks: nat, bs: nat, b: Backing, len: nat)
    requires AllocatorSpec.DoAllocate(gs, blocks + 1).Done?
    ensures var runs := KeptFor(gs, blocks).runs; FileEnds(gs, blocks, bs, b, len) <==> !NoChunkEnds(runs, |runs|, bs, b, len)
  {
    hide AllocatorSpec.DoAllocate, KeptFor, NoChunkEnds;
  }
}
