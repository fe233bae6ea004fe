/** Writing the image: the superblock, the group descriptors, the queue in order, and the padding. */
module Ext4Image {
  import opened Words
  import opened SparseFormat
  import opened OutputFiles
  import opened ImageWrites
  import opened WriteQueue
  import Files
  import Simg2Img
  import Crc32

  // ----- queued items as writes -----

  /** A file chunk lies inside its file. */
  predicate Backed(source: Source) {
    source.FileChunk? ==> source.offset + source.len <= |source.file|
  }

  function Data(source: Source): seq<byte>
    requires Backed(source)
  {
    match source
    case Memory(data) => data
    case FileChunk(file, offset, len) => file[offset..offset + len]
  }

  function ItemWrite(x: Item, bs: nat): Write
    requires Backed(x.source)
  {
    Write(x.block * bs, Data(x.source))
  }

  ghost predicate AllBacked(items: seq<Item>) {
    forall i :: 0 <= i < |items| ==> Backed(items[i].source)
  }

  function ItemWrites(items: seq<Item>, bs: nat): (ws: seq<Write>)
    requires AllBacked(items)
    ensures |ws| == |items|
    ensures forall i :: 0 <= i < |ws| ==> ws[i] == ItemWrite(items[i], bs)
  {
    seq(|items|, i requires 0 <= i < |items| => ItemWrite(items[i], bs))
  }

  /** The last block of an item, in unsigned 32-bit arithmetic. */
  function LastBlock(x: Item, bs: nat): u32
    requires bs > 0 && Backed(x.source)
  {
    (x.block + DivRoundUp(|Data(x.source)|, bs) - 1) % TWO32
  }

  /** The checks one item meets behind the writes ws, after an item that ended in block `last`. */
  predicate ItemPasses(ws: seq<Write>, x: Item, last: u32, bs: nat, len: nat, sparse: bool)
    requires bs > 0 && Backed(x.source)
  {
    var w := ItemWrite(x, bs);
    && x.block >= last
    && w.off + |w.data| <= len
    && (x.source.FileChunk? ==> w.off + |w.data| != len)
    && (sparse ==> Passes(ws, w, bs, len))
  }

  /** The checks of the whole queue from its k-th item on. */
  predicate QueuePasses(ws: seq<Write>, items: seq<Item>, k: nat, last: u32, bs: nat, len: nat, sparse: bool)
    requires bs > 0 && AllBacked(items) && k <= |items|
    decreases |items| - k
  {
    k == |items| ||
    (ItemPasses(ws, items[k], last, bs, len, sparse) &&
     QueuePasses(ws + [ItemWrite(items[k], bs)], items, k + 1, LastBlock(items[k], bs), bs, len, sparse))
  }

  // ----- the output file behind a list of writes -----

  /** The chunks, or the plain file contents, are those of the writes ws, and all of them have passed. */
  ghost predicate Synced(sparse: bool, chunks: seq<Chunk>, content: seq<byte>, ws: seq<Write>, bs: nat, len: nat)
    requires bs > 0
  {
    && (if sparse then chunks == Chunks(ws, bs) && Accepted(ws, bs, len) else content == Overlay([], ws))
    && (forall w :: w in ws ==> w.off + |w.data| <= len)
  }

  predicate Admits(ws: seq<Write>, w: Write, bs: nat, len: nat, sparse: bool)
    requires bs > 0
  {
    w.off + |w.data| <= len && (sparse ==> Passes(ws, w, bs, len))
  }

  lemma SyncedNext(sparse: bool, chunks: seq<Chunk>, content: seq<byte>, ws: seq<Write>, w: Write, bs: nat, len: nat,
                   chunks': seq<Chunk>, content': seq<byte>)
    requires bs > 0 && Synced(sparse, chunks, content, ws, bs, len) && Admits(ws, w, bs, len, sparse)
    requires sparse ==> chunks' == Place(chunks, bs, w.off, w.data)
    requires !sparse ==> content' == Files.WriteAt(content, w.off, w.data)
    ensures Synced(sparse, chunks', content', ws + [w], bs, len)
  {
    SnocParts(ws, w);
    hide Place, Passes, Files.WriteAt;
  }

  ghost predicate Wrote(out: OutputFile, ws: seq<Write>)
    reads out, out.file
  {
    out.blockSize > 0 && out.Valid() && Synced(out.sparse, out.chunks, out.file.content, ws, out.blockSize, out.len)
  }

  lemma AdmitsIsTakes(out: OutputFile, ws: seq<Write>, w: Write)
    requires Wrote(out, ws)
    ensures Admits(ws, w, out.blockSize, out.len, out.sparse) <==> out.Takes(w.off, |w.data|)
  {
    hide Chunks, Overlay, Accepted, ExpandAll, EncodeAll, Crc32.Crc;
  }

  /** write_data_block behind the writes ws. */
  method PutBlock(out: OutputFile, w: Write, ghost ws: seq<Write>) returns (ok: bool)
    requires Wrote(out, ws) && |w.data| + out.blockSize <= INT_MAX
    modifies out, out.file
    ensures ok <==> Admits(ws, w, out.blockSize, out.len, out.sparse)
    ensures ok ==> Wrote(out, ws + [w])
  {
    ghost var chunks, content := out.chunks, out.file.content;
    AdmitsIsTakes(out, ws, w);
    hide OutputFile.Valid, OutputFile.Takes, Synced, Admits, Place, Files.WriteAt;
    ok := out.WriteDataBlock(w.off, w.data);
    if ok {
      SyncedNext(out.sparse, chunks, content, ws, w, out.blockSize, out.len, out.chunks, out.file.content);
    }
  }

  /** write_data_file behind the writes ws. */
  method PutFile(out: OutputFile, off: nat, source: Source, ghost ws: seq<Write>) returns (ok: bool)
    requires source.FileChunk? && Backed(source) && Wrote(out, ws) && source.len + out.blockSize <= INT_MAX
    modifies out, out.file
    ensures ok <==> Admits(ws, Write(off, Data(source)), out.blockSize, out.len, out.sparse) && off + source.len != out.len
    ensures ok ==> Wrote(out, ws + [Write(off, Data(source))])
  {
    hide OutputFile.Valid, OutputFile.Takes, Synced, Admits, Place, Files.WriteAt, Padded;
    ghost var chunks, content, w := out.chunks, out.file.content, Write(off, Data(source));
    AdmitsIsTakes(out, ws, w);
    ok := out.WriteDataFile(off, source.file, source.offset, source.len);
    if ok {
      SyncedNext(out.sparse, chunks, content, ws, w, out.blockSize, out.len, out.chunks, out.file.content);
    }
  }

  /** One round of for_each_data_block. */
  method PutItem(out: OutputFile, x: Item, last: u32, ghost ws: seq<Write>) returns (ok: bool, lastBlock: u32)
    requires Backed(x.source) && Wrote(out, ws) && |Data(x.source)| + out.blockSize <= INT_MAX
    modifies out, out.file
    ensures ok <==> ItemPasses(ws, x, last, out.blockSize, out.len, out.sparse)
    ensures ok ==> Wrote(out, ws + [ItemWrite(x, out.blockSize)]) && lastBlock == LastBlock(x, out.blockSize)
  {
    hide Wrote, LastBlock, Passes;
    lastBlock := last;
    if x.block < last {
      return false, last;
    }
    assert out.blockSize > 0 by {
      BlockSizePositive(out, ws);
    }
    lastBlock := LastBlock(x, out.blockSize);
    var off: nat := x.block * out.blockSize;
    if x.source.FileChunk? {
      ok := PutFile(out, off, x.source, ws);
    } else {
      ok := PutBlock(out, Write(off, x.source.data), ws);
    }
  }

  lemma BlockSizePositive(out: OutputFile, ws: seq<Write>)
    requires Wrote(out, ws)
    ensures out.blockSize > 0
  {}

  ghost predicate ItemsSized(items: seq<Item>, bs: nat)
    requires AllBacked(items)
  {
    forall i :: 0 <= i < |items| ==> |Data(items[i].source)| + bs <= INT_MAX
  }

  /** The writes ws followed by those of the first k items. */
  ghost function Behind(ws: seq<Write>, items: seq<Item>, k: nat, bs: nat): seq<Write>
    requires AllBacked(items) && k <= |items|
  {
    ws + ItemWrites(items, bs)[..k]
  }

  /** The verdict on the whole queue is the verdict on its rest, and the queue is fit to be written. */
  ghost predicate Verdict(q: Queue, out: OutputFile, ws: seq<Write>, k: nat, last: u32)
    reads q, q.nodes
  {
    && q.Valid() && k <= |q.Items()| == |q.nodes| && out.blockSize > 0
    && AllBacked(q.Items()) && ItemsSized(q.Items(), out.blockSize)
    && (QueuePasses(ws, q.Items(), 0, 0, out.blockSize, out.len, out.sparse)
        <==> QueuePasses(Behind(ws, q.Items(), k, out.blockSize), q.Items(), k, last, out.blockSize, out.len, out.sparse))
  }

  /** The loop of for_each_data_block in front of item k: the writes so far are in the file. */
  ghost predicate InFrontOf(q: Queue, out: OutputFile, ws: seq<Write>, k: nat, last: u32)
    reads q, q.nodes, out, out.file
  {
    Verdict(q, out, ws, k, last) && Wrote(out, Behind(ws, q.Items(), k, out.blockSize))
  }

  /** The queue does not pass. */
  ghost predicate Stuck(q: Queue, out: OutputFile, ws: seq<Write>)
    reads q, q.nodes
  {
    && AllBacked(q.Items()) && out.blockSize > 0
    && !QueuePasses(ws, q.Items(), 0, 0, out.blockSize, out.len, out.sparse)
  }

  lemma StuckIs(q: Queue, out: OutputFile, ws: seq<Write>)
    requires Stuck(q, out, ws)
    ensures AllBacked(q.Items()) && out.blockSize > 0
    ensures !QueuePasses(ws, q.Items(), 0, 0, out.blockSize, out.len, out.sparse)
  {}

  lemma Start(q: Queue, out: OutputFile, ws: seq<Write>)
    requires q.Valid() && AllBacked(q.Items()) && ItemsSized(q.Items(), out.blockSize) && Wrote(out, ws)
    ensures InFrontOf(q, out, ws, 0, 0)
    ensures q.dataBlocks == if q.nodes == [] then null else q.nodes[0]
  {
    assert Behind(ws, q.Items(), 0, out.blockSize) == ws;
    hide Wrote, Chain, Sorted, QueuePasses, Behind;
  }

  lemma BehindNext(ws: seq<Write>, items: seq<Item>, k: nat, bs: nat)
    requires AllBacked(items) && k < |items|
    ensures Behind(ws, items, k + 1, bs) == Behind(ws, items, k, bs) + [ItemWrite(items[k], bs)]
  {}

  /** What the loop knows about the node it stands on. */
  lemma AtNode(q: Queue, out: OutputFile, ws: seq<Write>, k: nat, last: u32)
    requires InFrontOf(q, out, ws, k, last) && k < |q.nodes|
    ensures Verdict(q, out, ws, k, last)
    ensures q.nodes[k].next == (if k + 1 < |q.nodes| then q.nodes[k + 1] else null)
    ensures |q.Items()| == |q.nodes| && q.nodes[k].item == q.Items()[k] && Backed(q.Items()[k].source)
    ensures AllBacked(q.Items()) && Wrote(out, Behind(ws, q.Items(), k, out.blockSize))
    ensures |Data(q.nodes[k].item.source)| + out.blockSize <= INT_MAX && out.blockSize > 0
  {
    hide Wrote, Sorted, QueuePasses, Behind;
  }

  lemma Finished(q: Queue, out: OutputFile, ws: seq<Write>, last: u32)
    requires InFrontOf(q, out, ws, |q.nodes|, last)
    ensures AllBacked(q.Items()) && out.blockSize > 0
    ensures QueuePasses(ws, q.Items(), 0, 0, out.blockSize, out.len, out.sparse)
    ensures Wrote(out, ws + ItemWrites(q.Items(), out.blockSize))
  {
    assert Behind(ws, q.Items(), |q.nodes|, out.blockSize) == ws + ItemWrites(q.Items(), out.blockSize);
    hide Wrote, Sorted, Chain;
  }

  /** One round of the loop. */
  method Round(q: Queue, out: OutputFile, ghost ws: seq<Write>, ghost k: nat, db: DataBlock, last: u32) returns (ok: bool, lastBlock: u32)
    requires InFrontOf(q, out, ws, k, last) && k < |q.nodes| && db == q.nodes[k]
    modifies out, out.file
    ensures ok ==> InFrontOf(q, out, ws, k + 1, lastBlock)
    ensures !ok ==> Stuck(q, out, ws)
  {
    hide *;
    AtNode(q, out, ws, k, last);
    ghost var before := Behind(ws, q.Items(), k, out.blockSize);
    ok, lastBlock := PutItem(out, db.item, last, before);
    if ok {
      GoesOn(q, out, ws, k, last, before);
    } else {
      GetsStuck(q, out, ws, k, last, before);
    }
  }

  lemma GoesOn(q: Queue, out: OutputFile, ws: seq<Write>, k: nat, last: u32, before: seq<Write>)
    requires Verdict(q, out, ws, k, last) && k < |q.nodes| && Backed(q.nodes[k].item.source) && out.blockSize > 0
    requires AllBacked(q.Items()) && |q.Items()| == |q.nodes| && before == Behind(ws, q.Items(), k, out.blockSize)
    requires q.nodes[k].item == q.Items()[k]
    requires ItemPasses(before, q.nodes[k].item, last, out.blockSize, out.len, out.sparse)
    requires Wrote(out, before + [ItemWrite(q.nodes[k].item, out.blockSize)])
    ensures InFrontOf(q, out, ws, k + 1, LastBlock(q.nodes[k].item, out.blockSize))
  {
    BehindNext(ws, q.Items(), k, out.blockSize);
    hide Queue.Valid, Queue.Items, Wrote, ItemPasses, Behind, ItemWrite, LastBlock, ItemsSized;
  }

  lemma GetsStuck(q: Queue, out: OutputFile, ws: seq<Write>, k: nat, last: u32, before: seq<Write>)
    requires Verdict(q, out, ws, k, last) && k < |q.nodes| && Backed(q.nodes[k].item.source) && out.blockSize > 0
    requires AllBacked(q.Items()) && |q.Items()| == |q.nodes| && before == Behind(ws, q.Items(), k, out.blockSize)
    requires q.nodes[k].item == q.Items()[k]
    requires !ItemPasses(before, q.nodes[k].item, last, out.blockSize, out.len, out.sparse)
    ensures Stuck(q, out, ws)
  {
    hide Queue.Valid, Queue.Items, ItemPasses, Behind, ItemWrite, LastBlock, ItemsSized;
  }

  /** for_each_data_block behind the writes ws: every item in turn, until one fails a check. */
  method ForEachDataBlock(q: Queue, out: OutputFile, ghost ws: seq<Write>) returns (ok: bool)
    requires q.Valid() && AllBacked(q.Items()) && ItemsSized(q.Items(), out.blockSize) && Wrote(out, ws)
    requires out.blockSize > 0
    modifies out, out.file
    ensures ok <==> QueuePasses(ws, q.Items(), 0, 0, out.blockSize, out.len, out.sparse)
    ensures ok ==> Wrote(out, ws + ItemWrites(q.Items(), out.blockSize))
  {
    hide *;
    ghost var k := 0;
    var last: u32 := 0;
    var db := q.dataBlocks;
    Start(q, out, ws);
    while db != null
      invariant k <= |q.nodes| && InFrontOf(q, out, ws, k, last)
      invariant db == if k < |q.nodes| then q.nodes[k] else null
      decreases |q.nodes| - k
    {
      AtNode(q, out, ws, k, last);
      ok, last := Round(q, out, ws, k, db, last);
      if !ok {
        StuckIs(q, out, ws);
        return;
      }
      db := db.next;
      k := k + 1;
    }
    Finished(q, out, ws, last);
    ok := true;
  }

  // ----- the whole image -----

  /** The two writes in front of the queue: the superblock, in a block of its own when blocks are larger than it,
      and the group descriptors. */
  function HeadWrites(sb: seq<byte>, bgDesc: seq<byte>, firstDataBlock: nat, bs: nat): seq<Write>
    requires |sb| == 1024
  {
    [if bs > 1024 then Write(0, Files.Resize(Zeros(1024) + sb, bs)) else Write(1024, sb),
     Write((firstDataBlock + 1) * bs, bgDesc)]
  }

  function AllWrites(sb: seq<byte>, bgDesc: seq<byte>, firstDataBlock: nat, items: seq<Item>, bs: nat): seq<Write>
    requires |sb| == 1024 && AllBacked(items)
  {
    HeadWrites(sb, bgDesc, firstDataBlock, bs) + ItemWrites(items, bs)
  }

  /** The checks of the whole run. */
  predicate ImagePasses(sb: seq<byte>, bgDesc: seq<byte>, firstDataBlock: nat, items: seq<Item>, bs: nat, len: nat, sparse: bool)
    requires |sb| == 1024 && AllBacked(items) && bs > 0
  {
    var heads := HeadWrites(sb, bgDesc, firstDataBlock, bs);
    && Admits([], heads[0], bs, len, sparse)
    && Admits([heads[0]], heads[1], bs, len, sparse)
    && QueuePasses(heads, items, 0, 0, bs, len, sparse)
    && (sparse ==> Divides(bs, len))
  }

  lemma NothingWrote(out: OutputFile)
    requires out.Valid() && out.chunks == [] && (!out.sparse ==> out.file.content == [])
    ensures Wrote(out, [])
  {}

  /** pad_output_file behind all writes. */
  method Pad(out: OutputFile, ghost ws: seq<Write>) returns (ok: bool)
    requires Wrote(out, ws) && out.len > 0
    modifies out, out.file
    ensures out.blockSize > 0 && (ok <==> (out.sparse ==> Divides(out.blockSize, out.len)))
    ensures ok ==> out.Valid()
    ensures ok && out.sparse ==> out.chunks == ImageChunks(ws, out.blockSize, out.len)
    ensures ok && !out.sparse ==> out.file.content == PlainImage(ws, out.len)
  {
    PadAllowed(out, ws);
    hide OutputFile.Valid, Size, Chunks, Overlay, Fill, Files.WriteAt, Divides;
    ok := out.PadOutputFile(out.len);
  }

  lemma PadAllowed(out: OutputFile, ws: seq<Write>)
    requires Wrote(out, ws)
    ensures out.sparse && Divides(out.blockSize, out.len) ==> out.curOutPtr <= out.len
    ensures out.sparse ==> out.chunks == Chunks(ws, out.blockSize)
    ensures !out.sparse ==> out.file.content == Overlay([], ws)
  {
    hide Divides, Size, Chunks, Overlay, Crc32.Crc, EncodeAll, ExpandAll;
    if out.sparse && Divides(out.blockSize, out.len) {
      ChunksInside(ws, out.blockSize, out.len);
    }
  }

  /** What the finished file holds. */
  function FinishedFile(ws: seq<Write>, bs: u32, len: nat, sparse: bool): seq<byte>
    requires bs > 0 && len > 0
  {
    if sparse then SparseFile(ImageChunks(ws, bs, len), bs, len, Crc32.Checksum(FlatImage(ws, len)))
    else PlainImage(ws, len)
  }

  lemma ClosedFile(out: OutputFile, ws: seq<Write>)
    requires out.sparse && out.Valid() && out.chunks == ImageChunks(ws, out.blockSize, out.len)
    requires Divides(out.blockSize, out.len) && Accepted(ws, out.blockSize, out.len)
    ensures out.crc32 as int == Crc32.Checksum(FlatImage(ws, out.len))
  {
    ImageChunksExpand(ws, out.blockSize, out.len);
    hide Divides, ImageChunks, FlatImage, Crc32.Crc, EncodeAll, ExpandAll, Accepted;
  }

  lemma WroteAccepted(out: OutputFile, ws: seq<Write>)
    requires Wrote(out, ws)
    ensures out.blockSize > 0 && (out.sparse ==> Accepted(ws, out.blockSize, out.len))
  {}

  /** The end of write_ext4_image: padding and the final header. */
  method FinishImage(out: OutputFile, ghost ws: seq<Write>) returns (ok: bool)
    requires Wrote(out, ws) && out.len > 0
    modifies out, out.file
    ensures out.blockSize > 0 && (ok <==> (out.sparse ==> Divides(out.blockSize, out.len)))
    ensures ok ==> out.file.content == FinishedFile(ws, out.blockSize, out.len, out.sparse)
  {
    WroteAccepted(out, ws);
    hide Wrote, OutputFile.Valid, ImageChunks, PlainImage, FlatImage, SparseFile, Divides, Accepted;
    ok := Pad(out, ws);
    if ok {
      if out.sparse {
        ClosedFile(out, ws);
      }
      out.CloseOutputFile();
    }
  }

  /** The buffer on the stack from which the first block of a filesystem is written. */
  const FIRST_BLOCK_BUFFER: nat := 4096

  /** write_ext4_image: it succeeds exactly when every check passes, and then the file is the encoding of the
      writes, or the plain image. With a larger block the first write is handed more bytes than its buffer has; overread
      reports that. */
  method WriteExt4Image(q: Queue, sb: seq<byte>, bgDesc: seq<byte>, firstDataBlock: nat, bs: u32, len: nat, sparse: bool)
    returns (ok: bool, overread: bool, content: seq<byte>)
    requires q.Valid() && AllBacked(q.Items()) && |sb| == 1024
    requires bs > 0 && IsPow2(bs) && len > 0
    requires ItemsSized(q.Items(), bs) && |bgDesc| + bs <= INT_MAX && 2 * bs + 1024 <= INT_MAX
    ensures overread <==> bs > FIRST_BLOCK_BUFFER
    ensures ok <==> !overread && ImagePasses(sb, bgDesc, firstDataBlock, q.Items(), bs, len, sparse)
    ensures ok ==> content == FinishedFile(AllWrites(sb, bgDesc, firstDataBlock, q.Items(), bs), bs, len, sparse)
  {
    hide OutputFile.Valid, Wrote, Admits, QueuePasses, FinishedFile, ItemsSized, AllBacked, Divides;
    content := [];
    overread := bs > FIRST_BLOCK_BUFFER;
    if overread {
      return false, overread, content;
    }
    var heads := HeadWrites(sb, bgDesc, firstDataBlock, bs);
    var out := new OutputFile(bs, len, sparse);
    NothingWrote(out);
    ok := PutBlock(out, heads[0], []);
    if !ok {
      return;
    }
    assert [] + [heads[0]] == [heads[0]] && [heads[0]] + [heads[1]] == heads;
    ok := PutBlock(out, heads[1], [heads[0]]);
    if !ok {
      return;
    }
    ok := ForEachDataBlock(q, out, heads);
    if !ok {
      return;
    }
    ok := FinishImage(out, AllWrites(sb, bgDesc, firstDataBlock, q.Items(), bs));
    content := out.file.content;
  }

  // ----- queues of chunks that share no block -----

  /** The number of blocks an item occupies. */
  function BlockCount(x: Item, bs: nat): nat
    requires bs > 0 && Backed(x.source)
  {
    DivRoundUp(|Data(x.source)|, bs)
  }

  /** No two items share a block. */
  ghost predicate BlocksApart(items: seq<Item>, bs: nat)
    requires bs > 0 && AllBacked(items)
  {
    forall i, j :: 0 <= i < j < |items| ==>
      || items[i].block + BlockCount(items[i], bs) <= items[j].block
      || items[j].block + BlockCount(items[j], bs) <= items[i].block
  }

  /** The items lie in ascending order without overlap. */
  ghost predicate Ascending(items: seq<Item>, bs: nat)
    requires bs > 0 && AllBacked(items)
  {
    forall i, j :: 0 <= i < j < |items| ==> items[i].block + BlockCount(items[i], bs) <= items[j].block
  }

  /** Every item has data, inside the image; a file chunk does not end at its very end. */
  ghost predicate Inside(items: seq<Item>, bs: nat, len: nat)
    requires bs > 0 && AllBacked(items)
  {
    forall i :: 0 <= i < |items| ==>
      var w := ItemWrite(items[i], bs);
      w.data != [] && w.off + |w.data| <= len && (items[i].source.FileChunk? ==> w.off + |w.data| != len)
  }

  lemma CountPositive(n: nat, bs: nat)
    requires bs > 0 && n > 0
    ensures DivRoundUp(n, bs) > 0
  {
    DivRoundUpBounds(n, bs);
    hide DivRoundUp;
    MulGap(DivRoundUp(n, bs), 1, bs);
  }

  /** A queue in block order whose chunks share no block is emitted in ascending order without overlap. */
  lemma SortedApartAscends(items: seq<Item>, bs: nat, len: nat)
    requires bs > 0 && AllBacked(items) && Sorted(items) && BlocksApart(items, bs) && Inside(items, bs, len)
    ensures Ascending(items, bs)
  {
    hide DivRoundUp;
    forall i, j | 0 <= i < j < |items|
      ensures items[i].block + BlockCount(items[i], bs) <= items[j].block
    {
      assert ItemWrite(items[j], bs).data != [];
      CountPositive(|Data(items[j].source)|, bs);
      assert items[i].block <= items[j].block;
    }
  }

  lemma ItemEnd(x: Item, bs: nat)
    requires bs > 0 && Backed(x.source)
    ensures End(ItemWrite(x, bs), bs) == (x.block + BlockCount(x, bs)) * bs
    ensures Divides(bs, ItemWrite(x, bs).off)
  {
    DividesMultiple(bs, x.block);
    PaddedLength(Data(x.source), bs);
    hide DivRoundUp, Padded, Divides;
    var b, n := x.block, BlockCount(x, bs);
    assert (b + n) * bs == b * bs + n * bs;
  }

  lemma PaddedLength(data: seq<byte>, bs: nat)
    requires bs > 0
    ensures |Padded(data, bs)| == DivRoundUp(|data|, bs) * bs
  {
    DivRoundUpBounds(|data|, bs);
    hide DivRoundUp;
  }

  /** All writes of ws end before the items from k on. */
  ghost predicate Before(ws: seq<Write>, items: seq<Item>, k: nat, bs: nat)
    requires bs > 0
  {
    forall i, j :: 0 <= i < |ws| && k <= j < |items| ==> End(ws[i], bs) <= items[j].block * bs
  }

  lemma PassesNext(ws: seq<Write>, x: Item, bs: nat, len: nat)
    requires bs > 0 && Backed(x.source) && WellPlaced(ws, bs, len)
    requires ItemWrite(x, bs).off + |ItemWrite(x, bs).data| <= len
    requires forall i :: 0 <= i < |ws| ==> End(ws[i], bs) <= ItemWrite(x, bs).off
    ensures Passes(ws, ItemWrite(x, bs), bs, len) && WellPlaced(ws + [ItemWrite(x, bs)], bs, len)
  {
    ItemEnd(x, bs);
    AcceptedIffWellPlaced(ws, bs, len);
    AcceptedSize(ws, bs, len);
    hide End, Divides, SparseFormat.Size, Chunks, Accepted, ItemWrite;
    WellPlacedSnoc(ws, ItemWrite(x, bs), bs, len);
  }

  lemma BeforeNext(ws: seq<Write>, items: seq<Item>, k: nat, bs: nat)
    requires bs > 0 && AllBacked(items) && k < |items| && Ascending(items, bs) && Before(ws, items, k, bs)
    ensures Before(ws + [ItemWrite(items[k], bs)], items, k + 1, bs)
  {
    var all := ws + [ItemWrite(items[k], bs)];
    hide End, DivRoundUp, ItemWrite;
    forall i, j | 0 <= i < |all| && k + 1 <= j < |items|
      ensures End(all[i], bs) <= items[j].block * bs
    {
      if i == |ws| {
        ItemEnd(items[k], bs);
        var a := items[k].block + BlockCount(items[k], bs);
        assert a <= items[j].block;
        MulGap(a, items[j].block, bs);
      } else {
        assert all[i] == ws[i];
      }
    }
  }

  lemma LastBlockBelow(items: seq<Item>, k: nat, bs: nat, len: nat)
    requires bs > 0 && AllBacked(items) && Ascending(items, bs) && Inside(items, bs, len) && k + 1 < |items|
    ensures LastBlock(items[k], bs) <= items[k + 1].block
  {
    assert ItemWrite(items[k], bs).data != [];
    CountPositive(|Data(items[k].source)|, bs);
    hide DivRoundUp;
    var n := items[k].block + BlockCount(items[k], bs);
    assert n <= items[k + 1].block;
    assert (n - 1) % TWO32 == n - 1;
  }

  /** The next item passes, and leaves the writes well placed. */
  lemma ItemChecks(ws: seq<Write>, items: seq<Item>, k: nat, last: u32, bs: nat, len: nat, sparse: bool)
    requires bs > 0 && AllBacked(items) && Inside(items, bs, len) && k < |items| && last <= items[k].block
    requires WellPlaced(ws, bs, len) && Before(ws, items, k, bs)
    ensures ItemPasses(ws, items[k], last, bs, len, sparse)
    ensures WellPlaced(ws + [ItemWrite(items[k], bs)], bs, len)
  {
    var w := ItemWrite(items[k], bs);
    assert w.off + |w.data| <= len && (items[k].source.FileChunk? ==> w.off + |w.data| != len);
    hide End, Passes, Divides;
    PassesNext(ws, items[k], bs, len);
  }

  lemma PassesCons(ws: seq<Write>, items: seq<Item>, k: nat, last: u32, bs: nat, len: nat, sparse: bool)
    requires bs > 0 && AllBacked(items) && k <= |items|
    requires k < |items| ==> (ItemPasses(ws, items[k], last, bs, len, sparse)
      && QueuePasses(ws + [ItemWrite(items[k], bs)], items, k + 1, LastBlock(items[k], bs), bs, len, sparse))
    ensures QueuePasses(ws, items, k, last, bs, len, sparse)
  {
    hide ItemPasses, ItemWrite, LastBlock;
  }

  lemma RestOfWrites(ws: seq<Write>, items: seq<Item>, k: nat, bs: nat)
    requires AllBacked(items) && k <= |items|
    ensures k < |items| ==> ws + ItemWrites(items, bs)[k..] == (ws + [ItemWrite(items[k], bs)]) + ItemWrites(items, bs)[k + 1..]
    ensures ws + ItemWrites(items, bs)[|items|..] == ws && ItemWrites(items, bs)[0..] == ItemWrites(items, bs)
  {
    hide ItemWrite;
  }

  /** Such a queue passes every check of the writer, in both modes. */
  lemma {:induction false} AscendingPasses(ws: seq<Write>, items: seq<Item>, k: nat, last: u32, bs: nat, len: nat, sparse: bool)
    requires bs > 0 && AllBacked(items) && Ascending(items, bs) && Inside(items, bs, len) && k <= |items|
    requires WellPlaced(ws, bs, len) && Before(ws, items, k, bs) && (k < |items| ==> last <= items[k].block)
    ensures QueuePasses(ws, items, k, last, bs, len, sparse)
    ensures WellPlaced(ws + ItemWrites(items, bs)[k..], bs, len)
    decreases |items| - k
  {
    assert k < |items| ==> Backed(items[k].source);
    hide *;
    RestOfWrites(ws, items, k, bs);
    if k < |items| {
      ItemChecks(ws, items, k, last, bs, len, sparse);
      BeforeNext(ws, items, k, bs);
      if k + 1 < |items| {
        LastBlockBelow(items, k, bs, len);
      }
      AscendingPasses(ws + [ItemWrite(items[k], bs)], items, k + 1, LastBlock(items[k], bs), bs, len, sparse);
    }
    PassesCons(ws, items, k, last, bs, len, sparse);
  }

  // ----- from the queue to the expanded image -----

  /** The head writes are in place, and the queue lies behind them. */
  ghost predicate HeadsFit(sb: seq<byte>, bgDesc: seq<byte>, firstDataBlock: nat, items: seq<Item>, bs: nat, len: nat)
    requires |sb| == 1024 && bs > 0
  {
    var heads := HeadWrites(sb, bgDesc, firstDataBlock, bs);
    WellPlaced(heads, bs, len) && Before(heads, items, 0, bs)
  }

  lemma HeadsAdmitted(heads: seq<Write>, bs: nat, len: nat, sparse: bool)
    requires bs > 0 && |heads| == 2 && WellPlaced(heads, bs, len)
    ensures Admits([], heads[0], bs, len, sparse) && Admits([heads[0]], heads[1], bs, len, sparse)
  {
    AcceptedIffWellPlaced(heads, bs, len);
    assert Most(heads) == [heads[0]] && Last(heads) == heads[1] && Most([heads[0]]) == [];
    hide Passes, End, Divides;
  }

  /** A queue whose chunks share no block is written, and the sparse file expands to the image of all writes. */
  lemma QueueReachesImage(sb: seq<byte>, bgDesc: seq<byte>, firstDataBlock: nat, items: seq<Item>, bs: u32, len: nat)
    requires |sb| == 1024 && bs > 0 && IsPow2(bs) && AllBacked(items)
    requires Sorted(items) && BlocksApart(items, bs) && Inside(items, bs, len) && HeadsFit(sb, bgDesc, firstDataBlock, items, bs, len)
    requires Divides(bs, len)
    ensures forall sparse :: ImagePasses(sb, bgDesc, firstDataBlock, items, bs, len, sparse)
    ensures WellPlaced(AllWrites(sb, bgDesc, firstDataBlock, items, bs), bs, len)
  {
    var heads := HeadWrites(sb, bgDesc, firstDataBlock, bs);
    hide BlocksApart, Inside, Before, WellPlaced, Sorted, Divides, QueuePasses, Admits;
    SortedApartAscends(items, bs, len);
    RestOfWrites(heads, items, 0, bs);
    forall sparse
      ensures ImagePasses(sb, bgDesc, firstDataBlock, items, bs, len, sparse)
    {
      HeadsAdmitted(heads, bs, len, sparse);
      AscendingPasses(heads, items, 0, 0, bs, len, sparse);
    }
    AscendingPasses(heads, items, 0, 0, bs, len, true);
  }

  lemma WritesSized(sb: seq<byte>, bgDesc: seq<byte>, firstDataBlock: nat, items: seq<Item>, bs: nat)
    requires |sb| == 1024 && bs > 0 && AllBacked(items) && ItemsSized(items, bs)
    requires |bgDesc| + bs <= INT_MAX && 2 * bs + 1024 <= INT_MAX
    ensures Sized(AllWrites(sb, bgDesc, firstDataBlock, items, bs), bs)
  {
    var ws, heads := AllWrites(sb, bgDesc, firstDataBlock, items, bs), HeadWrites(sb, bgDesc, firstDataBlock, bs);
    forall i | 0 <= i < |ws|
      ensures |ws[i].data| + bs <= INT_MAX
    {
      if i >= 2 {
        assert ws[i] == ItemWrites(items, bs)[i - 2];
      } else {
        assert ws[i] == heads[i];
      }
    }
  }

  lemma AcceptedMore(ws: seq<Write>, w: Write, bs: nat, len: nat)
    requires bs > 0 && Accepted(ws, bs, len) && Passes(ws, w, bs, len)
    ensures Accepted(ws + [w], bs, len)
  {
    SnocParts(ws, w);
    hide Passes;
  }

  /** What passes every check behind accepted writes is accepted with them. */
  lemma {:induction false} PassedAccepted(ws: seq<Write>, items: seq<Item>, k: nat, last: u32, bs: nat, len: nat)
    requires bs > 0 && AllBacked(items) && k <= |items| && QueuePasses(ws, items, k, last, bs, len, true)
    requires Accepted(ws, bs, len)
    ensures Accepted(ws + ItemWrites(items, bs)[k..], bs, len)
    decreases |items| - k
  {
    hide Accepted, Passes, ItemWrite, LastBlock;
    RestOfWrites(ws, items, k, bs);
    if k < |items| {
      AcceptedMore(ws, ItemWrite(items[k], bs), bs, len);
      PassedAccepted(ws + [ItemWrite(items[k], bs)], items, k + 1, LastBlock(items[k], bs), bs, len);
    }
  }

  /** An image that passes every check is well placed. */
  lemma {:induction false} PassedIsPlaced(sb: seq<byte>, bgDesc: seq<byte>, firstDataBlock: nat, items: seq<Item>, bs: nat,
                                          len: nat)
    requires |sb| == 1024 && AllBacked(items) && bs > 0 && ImagePasses(sb, bgDesc, firstDataBlock, items, bs, len, true)
    ensures WellPlaced(AllWrites(sb, bgDesc, firstDataBlock, items, bs), bs, len) && Divides(bs, len)
  {
    var heads := HeadWrites(sb, bgDesc, firstDataBlock, bs);
    assert Accepted([], bs, len);
    assert [] + [heads[0]] == [heads[0]] && [heads[0]] + [heads[1]] == heads;
    hide HeadWrites, Accepted, Passes, QueuePasses, Divides, WellPlaced;
    AcceptedMore([], heads[0], bs, len);
    AcceptedMore([heads[0]], heads[1], bs, len);
    PassedAccepted(heads, items, 0, 0, bs, len);
    RestOfWrites(heads, items, 0, bs);
    AcceptedIffWellPlaced(AllWrites(sb, bgDesc, firstDataBlock, items, bs), bs, len);
  }

  // ----- the superblock and the descriptors in the image -----

  /** The superblock lies 1024 bytes from the start, and the descriptors in the block behind it. */
  ghost predicate HeadsRead(image: seq<byte>, sb: seq<byte>, bgDesc: seq<byte>, firstDataBlock: nat, bs: nat) {
    var at := (firstDataBlock + 1) * bs;
    && |image| >= 2048 && image[1024..2048] == sb
    && 0 <= at && at + |bgDesc| <= |image| && image[at..at + |bgDesc|] == bgDesc
  }

  lemma FirstBlockBytes(sb: seq<byte>, bs: nat)
    requires |sb| == 1024 && bs >= 2048
    ensures Files.Resize(Zeros(1024) + sb, bs)[1024..2048] == sb && |Files.Resize(Zeros(1024) + sb, bs)| == bs
  {}

  lemma HeadsAre(sb: seq<byte>, bgDesc: seq<byte>, firstDataBlock: nat, items: seq<Item>, bs: nat)
    requires |sb| == 1024 && AllBacked(items)
    ensures 0 <= (firstDataBlock + 1) * bs
    ensures var ws := AllWrites(sb, bgDesc, firstDataBlock, items, bs);
            && |ws| >= 2 && ws[1] == Write((firstDataBlock + 1) * bs, bgDesc)
            && (bs <= 1024 ==> ws[0] == Write(1024, sb))
            && (bs > 1024 ==> ws[0] == Write(0, Files.Resize(Zeros(1024) + sb, bs)))
  {
    MulNonNegative(firstDataBlock + 1, bs);
    hide Files.Resize, Zeros;
  }

  lemma SuperblockAt(image: seq<byte>, off: nat, data: seq<byte>, sb: seq<byte>)
    requires off + |data| <= |image| && image[off..off + |data|] == data && off <= 1024 && 2048 <= off + |data|
    requires data[1024 - off..2048 - off] == sb
    ensures |image| >= 2048 && image[1024..2048] == sb
  {
    SliceOfSlice(image, off, |data|, 1024 - off, 2048 - off);
  }

  /** In every image that is placed well, the superblock and the descriptors are where a reader looks for them. */
  lemma {:induction false} HeadsInImage(sb: seq<byte>, bgDesc: seq<byte>, firstDataBlock: nat, items: seq<Item>, bs: nat,
                                        len: nat)
    requires |sb| == 1024 && AllBacked(items) && (0 < bs <= 1024 || bs >= 2048)
    requires WellPlaced(AllWrites(sb, bgDesc, firstDataBlock, items, bs), bs, len)
    ensures HeadsRead(FlatImage(AllWrites(sb, bgDesc, firstDataBlock, items, bs), len), sb, bgDesc, firstDataBlock, bs)
  {
    var ws := AllWrites(sb, bgDesc, firstDataBlock, items, bs);
    var image := FlatImage(ws, len);
    hide *;
    HeadsAre(sb, bgDesc, firstDataBlock, items, bs);
    ImageHoldsWrite(ws, bs, len, 0);
    ImageHoldsWrite(ws, bs, len, 1);
    if bs <= 1024 {
      SuperblockAt(image, 1024, ws[0].data, sb);
    } else {
      FirstBlockBytes(sb, bs);
      SuperblockAt(image, 0, ws[0].data, sb);
    }
    HeadsReadIs(image, sb, bgDesc, firstDataBlock, bs, ws[1].off);
  }

  lemma HeadsReadIs(image: seq<byte>, sb: seq<byte>, bgDesc: seq<byte>, firstDataBlock: nat, bs: nat, at: nat)
    requires at == (firstDataBlock + 1) * bs && |image| >= 2048 && image[1024..2048] == sb
    requires at + |bgDesc| <= |image| && image[at..at + |bgDesc|] == bgDesc
    ensures HeadsRead(image, sb, bgDesc, firstDataBlock, bs)
  {}

  /** From the queue to the image and back, for any queue: the sparse file is written exactly when every check passes, and
      then the reader expands it to the image of all writes. */
  method WriteAndExpand(q: Queue, sb: seq<byte>, bgDesc: seq<byte>, firstDataBlock: nat, bs: u32, len: nat)
    returns (ok: bool, image: Simg2Img.Outcome)
    requires q.Valid() && AllBacked(q.Items()) && |sb| == 1024 && 0 < bs <= FIRST_BLOCK_BUFFER && IsPow2(bs) && len > 0
    requires ItemsSized(q.Items(), bs) && |bgDesc| + bs <= INT_MAX
    requires Div(len, bs) < TWO32 && 2 * |q.Items()| + 4 < INT_MAX
    ensures ok <==> ImagePasses(sb, bgDesc, firstDataBlock, q.Items(), bs, len, true)
    ensures ok ==> image == Simg2Img.Image(FlatImage(AllWrites(sb, bgDesc, firstDataBlock, q.Items(), bs), len))
    ensures ok ==> HeadsRead(image.data, sb, bgDesc, firstDataBlock, bs)
  {
    ghost var ws := AllWrites(sb, bgDesc, firstDataBlock, q.Items(), bs);
    hide OutputFile.Valid, Queue.Valid, ItemsSized, AllBacked, FlatImage, SparseFile, Divides, Div, WellPlaced;
    hide ImagePasses, Sized, ImageChunks, Simg2Img.ReadFile, IsPow2, Queue.Items, HeadsRead;
    Pow2Apart(bs);
    var overread, content;
    ok, overread, content := WriteExt4Image(q, sb, bgDesc, firstDataBlock, bs, len, true);
    image := Simg2Img.Simg2Img(content);
    if ok {
      PassedIsPlaced(sb, bgDesc, firstDataBlock, q.Items(), bs, len);
      WritesSized(sb, bgDesc, firstDataBlock, q.Items(), bs);
      SparseImageExpands(ws, bs, len);
      HeadsInImage(sb, bgDesc, firstDataBlock, q.Items(), bs, len);
    }
  }

  lemma Pow2Apart(bs: nat)
    requires IsPow2(bs)
    ensures 0 < bs <= 1024 || bs >= 2048
  {
    var k: nat :| k < 32 && bs == Pow2(k);
    hide IsPow2;
    Pow2Values();
    assert Pow2(2) == 4 && Pow2(3) == 8;
    Pow2Add(8, 2);
    Pow2Add(8, 3);
    if k <= 10 {
      Pow2Add(10 - k, k);
      MulGap(0, Pow2(10 - k), Pow2(k));
    } else {
      Pow2Add(k - 11, 11);
      MulGap(0, Pow2(k - 11), Pow2(11));
    }
  }

  lemma QueueInOrder(q: Queue)
    requires q.Valid()
    ensures Sorted(q.Items())
  {}
}
