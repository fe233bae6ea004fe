/** make_ext4fs from the parameters of the device on: the derived parameters, and with them a whole run. */
module MakeExt4fs {
  import opened Words
  import opened Geometry
  import opened BlockGroups
  import opened Allocators
  import opened Ext4Image
  import opened Filesystem
  import OutputFiles
  import S = ExtentsSpec

  /** What ext4_create_fs_aux_info leaves. */
  ghost function Start(info: Info): Aux
    requires info.blockSize > 0 && info.blocksPerGroup > 0
  {
    Trimmed(info, Untrimmed(info))
  }

  /** A group fits one bitmap block, the inode tables and the device fit their words, and a full group, and the device,
      hold a header. */
  ghost predicate Plausible(info: Info) {
    && info.blockSize in {1024, 2048, 4096} && 0 < info.blocksPerGroup <= 8 * info.blockSize
    && 0 < info.inodesPerGroup * info.inodeSize < 0x1_0000_0000 - info.blockSize
    && 1 < Div(info.len, info.blockSize) < 0x3FFF_FFF0
    && HeaderBlocks(Untrimmed(info), true) + Untrimmed(info).firstDataBlock <= info.blocksPerGroup
    && HoldsFirstHeader(info, Untrimmed(info))
  }

  /** The trimming works: blocks are over 1K, or the last group is neither full nor one block short of its header. */
  ghost predicate Trims(info: Info)
    requires info.blockSize > 0 && info.blocksPerGroup > 0
  {
    info.blockSize > 1024 || (Untrimmed(info).groups > 0 && TrimsWell(info, Untrimmed(info)))
  }

  lemma PlausibleSizes(info: Info)
    requires Plausible(info)
    ensures info.blockSize in {1024, 2048, 4096} && 0 < info.blocksPerGroup <= 8 * info.blockSize
    ensures 0 < info.inodesPerGroup * info.inodeSize < 0x1_0000_0000 - info.blockSize
    ensures 1 < Div(info.len, info.blockSize) < 0x3FFF_FFF0
    ensures HeaderBlocks(Untrimmed(info), true) + Untrimmed(info).firstDataBlock <= info.blocksPerGroup
    ensures HoldsFirstHeader(info, Untrimmed(info))
  {
    hide Untrimmed, HoldsFirstHeader, HeaderBlocks;
  }

  lemma FirstIs(info: Info)
    requires info.blockSize > 0 && info.blocksPerGroup > 0
    ensures Untrimmed(info).firstDataBlock == if info.blockSize > 1024 then 0 else 1
    ensures Untrimmed(info).lenBlocks == Wrap64(Div(info.len, info.blockSize))
    ensures Untrimmed(info).blocksPerInd == info.blockSize / 4
    ensures Untrimmed(info).bgDescReserveBlocks <= Untrimmed(info).blocksPerInd
  {
    hide Wrap, Wrap64, Div, DivRoundUp;
  }

  lemma {:induction false} StartReasonable(info: Info)
    requires Plausible(info)
    ensures Reasonable(info, Untrimmed(info)) && Untrimmed(info).groups > 0
    ensures Untrimmed(info).lenBlocks == Div(info.len, info.blockSize)
  {
    PlausibleSizes(info);
    FirstIs(info);
    assert TWO32 == 0x1_0000_0000;
    NoWrap64(Div(info.len, info.blockSize));
    hide *;
    UntrimmedReasonable(info);
    LastGroup(info, Untrimmed(info));
  }

  /** The program's own parameters can be built on if and only if the trimming works. */
  lemma {:induction false} StartBuildable(info: Info)
    requires Plausible(info)
    ensures info.blockSize > 0 && info.blocksPerGroup > 0 && (Buildable(info, Start(info)) <==> Trims(info))
  {
    PlausibleSizes(info);
    StartReasonable(info);
    FirstIs(info);
    TrimSound(info, Untrimmed(info));
    TrimmedLess(info, Untrimmed(info));
    hide Untrimmed, Sound, Reasonable, HoldsFirstHeader, TrimsWell, Trimmed, HeaderBlocks, Div;
  }

  lemma TrimmedLess(info: Info, aux: Aux)
    requires Reasonable(info, aux)
    ensures Trimmed(info, aux).lenBlocks <= aux.lenBlocks && Trimmed(info, aux).firstDataBlock == aux.firstDataBlock
    ensures Trimmed(info, aux) == aux.(groups := Trimmed(info, aux).groups, lenBlocks := Trimmed(info, aux).lenBlocks)
  {
    hide HasSuperBlock;
  }

  /** A group is left. */
  lemma {:induction false} StartGroups(info: Info, aux: Aux)
    requires Reasonable(info, aux) && HoldsFirstHeader(info, aux) && aux.groups > 0
    requires aux.firstDataBlock == 0 || TrimsWell(info, aux)
    ensures Trimmed(info, aux).groups > 0
  {
    TrimCases(info, aux);
    TrimmedIs(info, aux);
    FirstOfFirst(info, aux);
    hide GroupHeader, FirstBlock, GroupSize, DivRoundUp, Trimmed;
  }

  lemma TablePositive(b: nat, bs: nat)
    requires bs > 0 && 0 < b < 0x1_0000_0000 - bs
    ensures Wrap(Div(Wrap(Wrap(b) + bs - 1), bs)) > 0
  {
    Unwrapped(b);
    Unwrapped(b + bs - 1);
    DivIsRoundUp(b, bs);
    DivRoundUpBounds(b, bs);
    DivSmaller(b + bs - 1, bs);
    assert TWO32 == 0x1_0000_0000;
    var q := Div(b + bs - 1, bs);
    hide Div, DivRoundUp, Wrap;
    Unwrapped(q);
    assert q > 0;
  }

  lemma DescriptorsPositive(groups: nat, bs: nat)
    requires bs >= 1024 && 0 < groups < 0x4000_0000
    ensures Wrap(DivRoundUp(groups * 32, bs)) > 0
  {
    DivRoundUpBounds(groups * 32, bs);
    DivIsRoundUp(groups * 32, bs);
    var q: nat := DivRoundUp(groups * 32, bs);
    hide DivRoundUp, Div, Wrap;
    assert q > 0;
    MulNonNegative(q - 1, bs - 1024);
    assert (q - 1) * bs == (q - 1) * 1024 + (q - 1) * (bs - 1024);
    Unwrapped(q);
  }

  lemma RoundUpSmaller(n: nat, d: nat)
    requires d > 0
    ensures 0 <= DivRoundUp(n, d) <= n
  {
    DivRoundUpBounds(n, d);
    DivIsRoundUp(n, d);
    var q: nat := DivRoundUp(n, d);
    hide DivRoundUp, Div;
    MulGap(n, q, d);
    MulAtLeast(n, d);
  }

  lemma ReasonableGroups(info: Info, aux: Aux)
    requires Reasonable(info, aux)
    ensures 0 <= aux.lenBlocks - aux.firstDataBlock && info.blocksPerGroup > 0
    ensures aux.groups == DivRoundUp(aux.lenBlocks - aux.firstDataBlock, info.blocksPerGroup)
  {
    hide DivRoundUp;
  }

  lemma {:induction false} StartSizes(info: Info)
    requires Plausible(info)
    ensures Untrimmed(info).inodeTableBlocks > 0 && Untrimmed(info).bgDescBlocks > 0
  {
    PlausibleSizes(info);
    StartReasonable(info);
    RoundUpSmaller(Untrimmed(info).lenBlocks - Untrimmed(info).firstDataBlock, info.blocksPerGroup);
    ReasonableGroups(info, Untrimmed(info));
    TablePositive(info.inodesPerGroup * info.inodeSize, info.blockSize);
    DescriptorsPositive(Untrimmed(info).groups, info.blockSize);
    hide Wrap, Wrap64, Div, DivRoundUp, Plausible, Reasonable;
  }

  /** The parameters fit the rest of the program. */
  lemma {:induction false} StartIsDevice(info: Info, sb: seq<byte>, bgDesc: seq<byte>)
    requires Plausible(info) && Trims(info) && Divides(info.blockSize, info.len) && |sb| == 1024
    requires |bgDesc| == S.Bytes(Start(info).bgDescBlocks, info.blockSize)
    ensures Device(info, Start(info), sb, bgDesc) && Start(info).inodeTableBlocks > 0
  {
    PlausibleSizes(info);
    StartReasonable(info);
    StartBuildable(info);
    StartSizes(info);
    FirstIs(info);
    TrimmedLess(info, Untrimmed(info));
    StartGroups(info, Untrimmed(info));
    DivBounds(info.len, info.blockSize);
    MulGap(Start(info).lenBlocks, Div(info.len, info.blockSize) + 1, info.blockSize);
    var bs: nat := info.blockSize;
    assert (Div(info.len, bs) + 1) * bs == Div(info.len, bs) * bs + bs;
    assert OutputFiles.INT_MAX == 0x7FFF_FFFF && TWO32 == 0x1_0000_0000;
    StartIs(info);
    hide Plausible, Untrimmed, Trimmed, Buildable, Reasonable, HoldsFirstHeader, TrimsWell, Div, Divides, HeaderBlocks, Start;
  }

  lemma StartIs(info: Info)
    requires info.blockSize > 0 && info.blocksPerGroup > 0
    ensures Start(info) == Trimmed(info, Untrimmed(info))
  {
    hide Trimmed, Untrimmed;
  }

  /** The buffers have the sizes they are allocated with. */
  ghost predicate Allocated(info: Info, sb: seq<byte>, bgDesc: seq<byte>, bitmaps: seq<seq<byte>>, tables: seq<seq<byte>>)
    requires info.blockSize > 0 && info.blocksPerGroup > 0
  {
    var aux := Start(info);
    && |sb| == info.blockSize && |bgDesc| == S.Bytes(aux.bgDescBlocks, info.blockSize)
    && |bitmaps| == |tables| == aux.groups
    && (forall i :: 0 <= i < |bitmaps| ==> |bitmaps[i]| == 2 * info.blockSize)
    && (forall i :: 0 <= i < |tables| ==> |tables[i]| == aux.inodeTableBlocks * info.blockSize)
  }

  lemma StartBuffers(info: Info, sb: seq<byte>, bgDesc: seq<byte>, bitmaps: seq<seq<byte>>, tables: seq<seq<byte>>)
    requires Plausible(info) && Trims(info) && Divides(info.blockSize, info.len)
    requires info.blockSize > 0 && info.blocksPerGroup > 0 && Allocated(info, sb, bgDesc, bitmaps, tables)
    ensures Buffers(info, Start(info), sb, bgDesc, bitmaps, tables) && Buildable(info, Start(info)) && |sb| >= 1024
  {
    PlausibleSizes(info);
    StartBuildable(info);
    StartIsDevice(info, sb[..1024], bgDesc);
    hide Plausible, Trims, Divides, Start, Device, Buildable, S.Bytes;
  }

  /** make_ext4fs_internal, from the parameters of the device to the image, and simg2img behind it. */
  method BuildFromParameters(info: Info, sb: seq<byte>, bgDesc: seq<byte>, bitmaps: seq<seq<byte>>, tables: seq<seq<byte>>,
                             steps: seq<Step>)
    returns (built: Built, roots: seq<seq<byte>>, dinds: seq<u32>)
    requires Plausible(info) && Trims(info) && Divides(info.blockSize, info.len)
    requires Allocated(info, sb, bgDesc, bitmaps, tables) && StepsOk(steps, Start(info), info.blockSize)
    ensures Buildable(info, Start(info))
    ensures built.StepFailed? <==> !AllWork(info, Start(info), InitialGroups(info, Start(info)), steps, 0)
    ensures !built.StepFailed? ==> (built.Built? <==> NoneEnds(info, Start(info), InitialGroups(info, Start(info)), steps, 0))
    ensures built.Built? ==>
              && built.image.Image? && |built.image.data| == info.len
              && AllRead(built.image.data, roots, FilesOf(steps, |steps|), info.blockSize)
              && |dinds| == ResizesIn(steps, |steps|) && ResizesRead(built.image.data, info, Start(info), dinds)
              && |sb| >= 1024 && HeadsRead(built.image.data, sb[..1024], bgDesc, Start(info).firstDataBlock, info.blockSize)
              && HeadersRead(built.image.data, info, Start(info), sb, bgDesc, bitmaps, tables, steps)
  {
    hide *;
    PlausibleSizes(info);
    StartBuffers(info, sb, bgDesc, bitmaps, tables);
    StartIs(info);
    var aux := CreateFsAuxInfo(info);
    built, roots, dinds := BuildAndExpand(info, aux, sb, bgDesc, bitmaps, tables, steps);
  }
}
