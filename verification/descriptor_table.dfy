/** Following the group descriptors through the image, as a mount does: they lead to the bitmaps and the inode tables. */
module DescriptorTable {
  import opened Words
  import opened Geometry
  import opened HeaderQueue
  import opened Ext4Image
  import opened Filesystem

  /** Entry i of the table, of 32 bytes each, begins with the three block numbers of the descriptor. */
  ghost predicate Names(bgDesc: seq<byte>, i: nat, d: Descriptor) {
    32 * i + 12 <= |bgDesc|
    && bgDesc[32 * i..32 * i + 12] == Le32(d.blockBitmap) + Le32(d.inodeBitmap) + Le32(d.inodeTable)
  }

  /** A block number as a reader finds it. */
  function WordAt(image: seq<byte>, at: nat): u32
    requires at + 4 <= |image|
  {
    FromLe32(image[at..at + 4])
  }

  lemma WordsBack(t: seq<byte>, d: Descriptor)
    requires t == Le32(d.blockBitmap) + Le32(d.inodeBitmap) + Le32(d.inodeTable)
    ensures |t| == 12 && FromLe32(t[0..4]) == d.blockBitmap && FromLe32(t[4..8]) == d.inodeBitmap
    ensures FromLe32(t[8..12]) == d.inodeTable
  {
    Le32RoundTrip(d.blockBitmap);
    Le32RoundTrip(d.inodeBitmap);
    Le32RoundTrip(d.inodeTable);
    hide Le32, FromLe32;
    assert t[0..4] == Le32(d.blockBitmap) && t[4..8] == Le32(d.inodeBitmap) && t[8..12] == Le32(d.inodeTable);
  }

  /** The three numbers, read from the table at `start`. */
  lemma {:induction false} EntryRead(image: seq<byte>, start: nat, bgDesc: seq<byte>, i: nat, d: Descriptor)
    requires start + |bgDesc| <= |image| && image[start..start + |bgDesc|] == bgDesc && Names(bgDesc, i, d)
    ensures var at := start + 32 * i;
            && at + 12 <= |image| && WordAt(image, at) == d.blockBitmap && WordAt(image, at + 4) == d.inodeBitmap
            && WordAt(image, at + 8) == d.inodeTable
  {
    var at, t := start + 32 * i, bgDesc[32 * i..32 * i + 12];
    WordsBack(t, d);
    SliceOfSlice(image, start, |bgDesc|, 32 * i, 32 * i + 12);
    assert image[at..at + 12] == t;
    SliceOfSlice(image, at, 12, 0, 4);
    SliceOfSlice(image, at, 12, 4, 8);
    SliceOfSlice(image, at, 12, 8, 12);
    hide Le32, FromLe32;
  }

  lemma DescribedBlocks(info: Info, aux: Aux, i: nat, d: Descriptor)
    requires Describes(info, aux, i, d)
    ensures d.blockBitmap == aux.firstDataBlock + i * info.blocksPerGroup + Front(info, aux, i)
    ensures d.inodeBitmap == d.blockBitmap + 1 && d.inodeTable == d.blockBitmap + 2
  {
    FirstIs(info, aux, i);
    hide HasSuperBlock, FirstBlock;
  }

  /** The second half of a buffer lies one block further. */
  lemma SecondBlock(image: seq<byte>, bs: nat, block: int, data: seq<byte>)
    requires Shows(image, bs, block, data) && |data| == 2 * bs
    ensures Shows(image, bs, block, data[..bs]) && Shows(image, bs, block + 1, data[bs..])
  {
    var at := block * bs;
    assert (block + 1) * bs == at + bs;
    SliceOfSlice(image, at, |data|, 0, bs);
    SliceOfSlice(image, at, |data|, bs, 2 * bs);
    assert data[0..bs] == data[..bs] && data[bs..2 * bs] == data[bs..];
  }

  /** What the descriptor of a group names, in the table as it is read from the image, is there: the group's own block
      bitmap, its inode bitmap, and, when the run needed it, its inode table. */
  lemma {:induction false} DescriptorLeads(image: seq<byte>, info: Info, aux: Aux, sb: seq<byte>, block: seq<byte>,
                                           bgDesc: seq<byte>, bitmaps: seq<seq<byte>>, tables: seq<seq<byte>>,
                                           steps: seq<Step>, i: nat, d: Descriptor)
    requires HeadsRead(image, sb, bgDesc, aux.firstDataBlock, info.blockSize)
    requires HeadersRead(image, info, aux, block, bgDesc, bitmaps, tables, steps)
    requires i < |bitmaps| && |bitmaps[i]| == 2 * info.blockSize && Describes(info, aux, i, d) && Names(bgDesc, i, d)
    ensures var at, bs := (aux.firstDataBlock + 1) * info.blockSize + 32 * i, info.blockSize;
            && 0 <= at && at + 12 <= |image|
            && Shows(image, bs, WordAt(image, at), bitmaps[i][..bs])
            && Shows(image, bs, WordAt(image, at + 4), bitmaps[i][bs..])
            && forall k :: 0 <= k < |steps| && steps[k] == Inode(i) ==>
                 i < |tables| && Shows(image, bs, WordAt(image, at + 8), tables[i])
  {
    MulNonNegative(aux.firstDataBlock + 1, info.blockSize);
    EntryRead(image, (aux.firstDataBlock + 1) * info.blockSize, bgDesc, i, d);
    DescribedBlocks(info, aux, i, d);
    assert GroupRead(image, info, aux, i, block, bgDesc, bitmaps[i]);
    hide Names, Describes, WordAt, Shows, Front, HasSuperBlock;
    SecondBlock(image, info.blockSize, d.blockBitmap, bitmaps[i]);
    forall k | 0 <= k < |steps| && steps[k] == Inode(i)
      ensures i < |tables| && Shows(image, info.blockSize, d.inodeTable, tables[i])
    {
      assert steps[k].Inode? && steps[k].group == i;
      assert TableRead(image, info, aux, i, tables[i]);
    }
  }
}
