/** The block bitmaps of a run: when the buffers queued at its start are written, they hold the bits the allocator has then. */
module BlockBitmaps {
  import opened Words
  import opened Bitmaps
  import opened Geometry
  import opened AllocatorSpec
  import opened BlockGroups
  import opened Allocators
  import opened WriteQueue
  import opened HeaderQueue
  import opened Ext4Image
  import opened Filesystem

  /** The bytes of a bitmap. */
  function BytesOf(bits: seq<bv8>): (s: seq<byte>)
    ensures |s| == |bits| && forall j :: 0 <= j < |s| ==> s[j] == bits[j] as int
  {
    seq(|bits|, j requires 0 <= j < |bits| => bits[j] as int)
  }

  /** A bit is clear exactly when its block is one of the free ones of the group. */
  ghost predicate MarksFree(bits: seq<bv8>, n: nat, g: Group) {
    n <= 8 * |bits| && forall k: nat :: k < n ==> (IsSet(bits, k) <==> !(g.start <= k < g.start + g.free))
  }

  ghost predicate AllMark(bits: seq<seq<bv8>>, n: nat, gs: seq<Group>) {
    |bits| == |gs| && forall i :: 0 <= i < |bits| ==> MarksFree(bits[i], n, gs[i])
  }

  lemma MarksItsFree(a: Allocator, i: nat)
    requires a.Valid() && i < |a.groups|
    ensures MarksFree(a.groups[i].blockBitmap[..], a.n, a.View()[i])
  {
    assert a.groups[i].Valid(a.n);
    hide IsSet;
  }

  /** The two bitmaps of every group as they are when the queue is written. */
  method FilledBitmaps(a: Allocator, inodeBitmaps: seq<seq<byte>>)
    returns (bitmaps: seq<seq<byte>>, ghost bits: seq<seq<bv8>>)
    requires a.Valid() && |inodeBitmaps| == |a.groups|
    ensures |bitmaps| == |bits| == |a.groups| && AllMark(bits, a.n, old(a.View()))
    ensures forall i :: 0 <= i < |bits| ==>
              |bits[i]| == a.groups[i].blockBitmap.Length && bitmaps[i] == BytesOf(bits[i]) + inodeBitmaps[i]
  {
    bitmaps, bits := [], [];
    ghost var gs := a.View();
    hide Allocator.Valid, Allocator.View, MarksFree, BytesOf;
    for i := 0 to |a.groups|
      invariant |bitmaps| == |bits| == i && a.Valid() && a.View() == gs
      invariant forall k :: 0 <= k < i ==> MarksFree(bits[k], a.n, gs[k])
      invariant forall k :: 0 <= k < i ==>
                  |bits[k]| == a.groups[k].blockBitmap.Length && bitmaps[k] == BytesOf(bits[k]) + inodeBitmaps[k]
    {
      MarksItsFree(a, i);
      bits := bits + [a.groups[i].blockBitmap[..]];
      bitmaps := bitmaps + [BytesOf(a.groups[i].blockBitmap[..]) + inodeBitmaps[i]];
    }
  }

  /** The buffers other than the block bitmaps have the sizes they are allocated with. */
  ghost predicate OtherBuffers(info: Info, aux: Aux, sb: seq<byte>, bgDesc: seq<byte>, inodeBitmaps: seq<seq<byte>>,
                               tables: seq<seq<byte>>)
  {
    && |sb| == info.blockSize >= 1024 && Device(info, aux, sb[..1024], bgDesc) && aux.inodeTableBlocks > 0
    && |inodeBitmaps| == |tables| == aux.groups
    && (forall i :: 0 <= i < |inodeBitmaps| ==> |inodeBitmaps[i]| == info.blockSize)
    && (forall i :: 0 <= i < |tables| ==> |tables[i]| == aux.inodeTableBlocks * info.blockSize)
  }

  lemma OtherParts(info: Info, aux: Aux, sb: seq<byte>, bgDesc: seq<byte>, inodeBitmaps: seq<seq<byte>>,
                   tables: seq<seq<byte>>)
    requires OtherBuffers(info, aux, sb, bgDesc, inodeBitmaps, tables)
    ensures Buildable(info, aux) && 1024 <= info.blockSize <= 4096 && aux.groups > 0 && aux.inodeTableBlocks > 0
    ensures info.blockSize == 4 * aux.blocksPerInd && aux.bgDescReserveBlocks <= aux.blocksPerInd
    ensures |inodeBitmaps| == |tables| == aux.groups
    ensures forall i :: 0 <= i < |tables| ==> |tables[i]| == aux.inodeTableBlocks * info.blockSize
  {
    hide Buildable, Divides, Div;
  }

  lemma AllBuffers(info: Info, aux: Aux, sb: seq<byte>, bgDesc: seq<byte>, inodeBitmaps: seq<seq<byte>>,
                   tables: seq<seq<byte>>, bits: seq<seq<bv8>>, bitmaps: seq<seq<byte>>)
    requires OtherBuffers(info, aux, sb, bgDesc, inodeBitmaps, tables) && |bits| == |bitmaps| == aux.groups
    requires forall i :: 0 <= i < |bits| ==>
               |bits[i]| == info.blockSize && bitmaps[i] == BytesOf(bits[i]) + inodeBitmaps[i]
    ensures Buffers(info, aux, sb, bgDesc, bitmaps, tables)
  {
    hide Device, BytesOf;
  }

  /** A whole build in which the block bitmaps are the allocator's own. They are queued before the run and filled by it, and
      as the order of the queue does not depend on their bytes, the run is taken once for the bytes and once for the queue.
      When the image is written, a bit of a group's bitmap in it is clear exactly when the run has left that block free. */
  method BuildWithBitmaps(info: Info, aux: Aux, sb: seq<byte>, bgDesc: seq<byte>, inodeBitmaps: seq<seq<byte>>,
                          tables: seq<seq<byte>>, steps: seq<Step>)
    returns (built: Built, roots: seq<seq<byte>>, dinds: seq<u32>, bitmaps: seq<seq<byte>>, ghost bits: seq<seq<bv8>>)
    requires OtherBuffers(info, aux, sb, bgDesc, inodeBitmaps, tables) && StepsOk(steps, aux, info.blockSize)
    ensures Buildable(info, aux)
    ensures built.StepFailed? <==> !AllWork(info, aux, InitialGroups(info, aux), steps, 0)
    ensures !built.StepFailed? ==> (built.Built? <==> NoneEnds(info, aux, InitialGroups(info, aux), steps, 0))
    ensures built.Built? ==>
              && built.image.Image? && |built.image.data| == info.len
              && AllRead(built.image.data, roots, FilesOf(steps, |steps|), info.blockSize)
              && |dinds| == ResizesIn(steps, |steps|) && ResizesRead(built.image.data, info, aux, dinds)
              && HeadsRead(built.image.data, sb[..1024], bgDesc, aux.firstDataBlock, info.blockSize)
              && HeadersRead(built.image.data, info, aux, sb, bgDesc, bitmaps, tables, steps)
              && |bits| == |bitmaps| == |inodeBitmaps| == aux.groups
              && (forall i :: 0 <= i < |bits| ==> bitmaps[i] == BytesOf(bits[i]) + inodeBitmaps[i])
              && AllMark(bits, info.blocksPerGroup, AfterAll(info, aux, InitialGroups(info, aux), steps, 0))
  {
    hide *;
    bitmaps, bits := [], [];
    OtherParts(info, aux, sb, bgDesc, inodeBitmaps, tables);
    var q := new Queue();
    FreshLaid(info, aux);
    NothingQueuedYet(q.Items(), info.blockSize, info.len);
    NoKeys();
    ghost var gs := InitialGroups(info, aux);
    var a := new Allocator(info, aux);
    var ok;
    ghost var keys, live, files, made;
    ok, roots, dinds, keys, live, files, made := PopulateFresh(a, q, info, aux, steps, tables, [], gs);
    if !ok {
      return StepFailed, roots, dinds, bitmaps, bits;
    }
    BuildingParts(a, q, info, aux, keys, live, files, roots);
    bitmaps, bits := FilledBitmaps(a, inodeBitmaps);
    AllBuffers(info, aux, sb, bgDesc, inodeBitmaps, tables, bits, bitmaps);
    built, roots, dinds := BuildAndExpand(info, aux, sb, bgDesc, bitmaps, tables, steps);
  }

  lemma NoKeys()
    ensures InitKeys([])
  {}
}
