/** Devices on which the code misses its intent, from their parameters on. */
module Devices {
  import opened Words
  import opened Geometry
  import opened AllocatorSpec
  import opened AllocatorRuns
  import opened BlockGroups
  import opened Allocators
  import opened AllocatorSafety
  import opened MakeExt4fs
  import B = BoundaryCases
  import Z = Resize
  import S = ExtentsSpec
  import E = Extents
  import T = ExtentTree
  import V = ImageEnd
  import F = Filesystem

  lemma IndirectSizes(info: Info)
    requires info.blockSize > 0 && info.blocksPerGroup > 0
    ensures var aux := Untrimmed(info);
            && aux.blocksPerInd == info.blockSize / 4 && aux.blocksPerDind == Wrap(aux.blocksPerInd * aux.blocksPerInd)
            && aux.blocksPerTind == Wrap(aux.blocksPerDind * aux.blocksPerDind)
  {
    hide Wrap, Wrap64, Div, DivRoundUp;
  }

  lemma FirstGroupHasCopies(sparse: bool)
    ensures HasSuperBlock(sparse, 0) && HasSuperBlock(sparse, 1)
  {}

  lemma WholeBlocks(n: nat, bs: nat)
    requires bs > 0
    ensures Div(n * bs, bs) == n && Divides(bs, n * bs)
  {
    MulNonNegative(n, bs);
    ModUnique(n * bs, bs, n, 0);
    DivBounds(n * bs, bs);
    hide Div;
    var q := Div(n * bs, bs);
    MulGap(n, q, bs);
    MulGap(q, n, bs);
  }

  /** Parameters the program can be given, and what it derives from them. */
  ghost predicate Derived(info: Info, aux: Aux) {
    && Plausible(info) && Trims(info) && Divides(info.blockSize, info.len)
    && Start(info) == aux && Buildable(info, aux)
  }

  // ----- trimming -----

  /** 1K blocks, and one full group behind the boot block. */
  const FULL_GROUP: Info := Info(8193 * 1024, 1024, 8192, 2048, 256, true)

  lemma FullGroupParameters()
    ensures Untrimmed(FULL_GROUP) == Aux(1, 8193, 512, 1, 256, 0x1_0000, 0, 1, 31)
  {
    assert Div(8193 * 1024, 1024) == 8193;
    DivRoundUpUnique(8192, 8192, 1);
    DivRoundUpUnique(2048 * 256, 1024, 512);
    DivRoundUpUnique(32, 1024, 1);
    DivRoundUpUnique(1024 * 32, 1024, 32);
    UntrimmedExact(FULL_GROUP);
    IndirectSizes(FULL_GROUP);
    hide Untrimmed, DivRoundUp;
  }

  /** The full group is dropped, and no group is left. */
  lemma TrimDropsFullGroup()
    ensures Untrimmed(FULL_GROUP).groups == 1 && GroupSize(FULL_GROUP, Untrimmed(FULL_GROUP), 0) == 8192
    ensures Trimmed(FULL_GROUP, Untrimmed(FULL_GROUP)).groups == 0
    ensures !Sound(FULL_GROUP, Trimmed(FULL_GROUP, Untrimmed(FULL_GROUP)))
  {
    FullGroupParameters();
    FirstGroupHasCopies(true);
    var aux := Aux(1, 8193, 512, 1, 256, 0x1_0000, 0, 1, 31);
    assert HeaderBlocks(aux, true) == 547;
    hide Untrimmed, HasSuperBlock;
  }

  // ----- small devices of two groups -----

  /** So many 4K blocks in groups of bpg blocks, with a one-block inode table each. */
  function Small(bpg: u32, blocks: nat): Info { Info(blocks * 4096, 4096, bpg, 16, 256, true) }

  function SmallAux(blocks: nat): Aux { Aux(0, blocks, 1, 2, 1024, 0x10_0000, 0, 1, 15) }

  /** The sizes for which there are two groups, and the last one holds its header of 20 blocks. */
  ghost predicate TwoSmall(bpg: u32, blocks: nat) { 20 <= bpg <= 0x8000 && bpg + 20 <= blocks <= 2 * bpg }

  lemma SmallCounts(bpg: u32, blocks: nat)
    requires TwoSmall(bpg, blocks)
    ensures DivRoundUp(blocks, bpg) == 2 && 0 < bpg && 0 < blocks <= 0x1_0000 && bpg <= 0x8000
    ensures DivRoundUp(4096, 4096) == 1 && DivRoundUp(2 * 32, 4096) == 1 && DivRoundUp(2 * 1024 * 32, 4096) == 16
    ensures Div(blocks * 4096, 4096) == blocks && Divides(4096, blocks * 4096)
  {
    WholeBlocks(blocks, 4096);
    DivRoundUpUnique(blocks, bpg, 2);
    DivRoundUpUnique(4096, 4096, 1);
    DivRoundUpUnique(2 * 32, 4096, 1);
    DivRoundUpUnique(2 * 1024 * 32, 4096, 16);
    hide DivRoundUp, Div, Divides;
  }

  lemma SmallUntrimmed(bpg: u32, blocks: nat)
    requires TwoSmall(bpg, blocks)
    ensures Untrimmed(Small(bpg, blocks)) == SmallAux(blocks) && Div(blocks * 4096, 4096) == blocks
    ensures Divides(4096, blocks * 4096)
  {
    SmallCounts(bpg, blocks);
    SmallFields(bpg, blocks);
    assert Wrap(1024 * 1024) == 0x10_0000 && Wrap(0x10_0000 * 0x10_0000) == 0;
    assert TWO32 == 0x1_0000_0000;
    hide Untrimmed, DivRoundUp, Div, Divides, Small, TwoSmall, Wrap;
    UntrimmedExact(Small(bpg, blocks));
    IndirectSizes(Small(bpg, blocks));
  }

  lemma SmallSizes(bpg: u32, blocks: nat, i: nat)
    requires TwoSmall(bpg, blocks) && i < 2
    ensures var info, aux := Small(bpg, blocks), SmallAux(blocks);
            && FirstBlock(info, aux, i) == (if i == 0 then 0 else bpg as int) && GroupHeader(info, aux, i) == 20
            && GroupSize(info, aux, i) == if i == 0 then bpg as int else blocks - bpg
    ensures HeaderBlocks(SmallAux(blocks), true) == 20
  {
    FirstGroupHasCopies(true);
    assert i * bpg == if i == 0 then 0 else bpg as int;
    hide HasSuperBlock;
  }

  lemma SmallTrim(bpg: u32, blocks: nat)
    requires TwoSmall(bpg, blocks)
    ensures Trimmed(Small(bpg, blocks), SmallAux(blocks)) == SmallAux(blocks)
  {
    FirstGroupHasCopies(true);
    if blocks == 2 * bpg {
      ModUnique(blocks, bpg, 2, 0);
    } else {
      ModUnique(blocks, bpg, 1, blocks - bpg);
    }
    hide HasSuperBlock;
  }

  lemma SmallFields(bpg: u32, blocks: nat)
    ensures Small(bpg, blocks).blockSize == 4096 && Small(bpg, blocks).blocksPerGroup == bpg
    ensures Small(bpg, blocks).inodesPerGroup * Small(bpg, blocks).inodeSize == 4096 && Small(bpg, blocks).len == blocks * 4096
    ensures SmallAux(blocks).firstDataBlock == 0 && SmallAux(blocks).lenBlocks == blocks && SmallAux(blocks).groups == 2
  {}

  lemma FirstHeaderHeld(info: Info, aux: Aux, header: nat)
    requires GroupHeader(info, aux, 0) == header && header <= aux.lenBlocks - aux.firstDataBlock
    ensures HoldsFirstHeader(info, aux)
  {
    hide GroupHeader;
  }

  lemma {:induction false} SmallStart(bpg: u32, blocks: nat)
    requires TwoSmall(bpg, blocks)
    ensures Derived(Small(bpg, blocks), SmallAux(blocks)) && Buildable(Small(bpg, blocks), SmallAux(blocks))
  {
    SmallUntrimmed(bpg, blocks);
    SmallSizes(bpg, blocks, 0);
    SmallTrim(bpg, blocks);
    SmallFields(bpg, blocks);
    FirstHeaderHeld(Small(bpg, blocks), SmallAux(blocks), 20);
    SmallPlausible(bpg, blocks);
    StartBuildable(Small(bpg, blocks));
    StartIs(Small(bpg, blocks));
    hide Untrimmed, Trimmed, GroupHeader, GroupSize, FirstBlock, HeaderBlocks, Div, Divides, HoldsFirstHeader, Buildable, Start;
    hide Small, SmallAux, Plausible;
  }

  lemma SmallPlausible(bpg: u32, blocks: nat)
    requires TwoSmall(bpg, blocks) && Untrimmed(Small(bpg, blocks)) == SmallAux(blocks) && Div(blocks * 4096, 4096) == blocks
    requires HeaderBlocks(SmallAux(blocks), true) == 20 && HoldsFirstHeader(Small(bpg, blocks), SmallAux(blocks))
    ensures Plausible(Small(bpg, blocks)) && Trims(Small(bpg, blocks))
  {
    SmallFields(bpg, blocks);
    hide Untrimmed, Small, SmallAux, HeaderBlocks, HoldsFirstHeader, Div, TrimsWell;
  }

  lemma GroupIs(info: Info, aux: Aux, i: nat, first: nat, size: nat, header: nat, next: nat, free: nat)
    requires i < aux.groups && Buildable(info, aux) && FirstBlock(info, aux, i) == first
    requires GroupSize(info, aux, i) == size && GroupHeader(info, aux, i) == header && header + free == size
    requires next == if size < info.blocksPerGroup && size == header then info.blocksPerGroup else header
    ensures InitialGroup(info, aux, i) == Group(first, next, free, 0)
  {
    hide Buildable, GroupHeader, GroupSize, FirstBlock;
  }

  lemma TwoGroups(info: Info, aux: Aux, g: Group, h: Group)
    requires Buildable(info, aux) && aux.groups == 2
    requires InitialGroup(info, aux, 0) == g && InitialGroup(info, aux, 1) == h
    ensures InitialGroups(info, aux) == [g, h]
  {
    hide Buildable, InitialGroup;
  }

  /** The groups of such a device after init. */
  lemma {:induction false} SmallGroups(bpg: u32, blocks: nat, next: nat)
    requires TwoSmall(bpg, blocks) && next == if blocks - bpg < bpg && blocks - bpg == 20 then bpg as nat else 20
    ensures Derived(Small(bpg, blocks), SmallAux(blocks)) && Buildable(Small(bpg, blocks), SmallAux(blocks))
    ensures InitialGroups(Small(bpg, blocks), SmallAux(blocks)) == [Group(0, 20, bpg - 20, 0), Group(bpg, next, blocks - bpg - 20, 0)]
  {
    SmallFields(bpg, blocks);
    SmallRoom(bpg, blocks);
    hide *;
    var info, aux := Small(bpg, blocks), SmallAux(blocks);
    SmallStart(bpg, blocks);
    SmallSizes(bpg, blocks, 0);
    SmallSizes(bpg, blocks, 1);
    GroupIs(info, aux, 0, 0, bpg, 20, 20, bpg - 20);
    GroupIs(info, aux, 1, bpg, blocks - bpg, 20, next, blocks - bpg - 20);
    TwoGroups(info, aux, Group(0, 20, bpg - 20, 0), Group(bpg, next, blocks - bpg - 20, 0));
  }

  lemma SmallRoom(bpg: u32, blocks: nat)
    requires TwoSmall(bpg, blocks)
    ensures 20 <= bpg && bpg + 20 <= blocks
  {}

  // ----- the resize inode -----

  /** One group of 4K blocks. */
  const ONE_GROUP: Info := Info(32768 * 4096, 4096, 32768, 8192, 256, true)

  /** It has one descriptor block and seven reserved ones, and slots 0 and 4 get the same block. */
  lemma OneGroupCollides()
    ensures Untrimmed(ONE_GROUP).bgDescBlocks == 1 && Untrimmed(ONE_GROUP).bgDescReserveBlocks == 7
    ensures Z.Rotated(0, 1, 7) == 3 == Z.Rotated(4, 1, 7) && !Z.Injective(1, 7)
  {
    assert Div(32768 * 4096, 4096) == 32768;
    DivRoundUpUnique(32768, 32768, 1);
    DivRoundUpUnique(8192 * 256, 4096, 512);
    DivRoundUpUnique(32, 4096, 1);
    DivRoundUpUnique(1024 * 32, 4096, 8);
    RotationMeets();
    hide Untrimmed, DivRoundUp, Z.Rotated, Z.Injective;
    UntrimmedExact(ONE_GROUP);
  }

  lemma RotationMeets()
    ensures Z.Rotated(0, 1, 7) == 3 == Z.Rotated(4, 1, 7) && !Z.Injective(1, 7)
  {
    assert Z.Rotated(0, 1, 7) == Z.Rotated(4, 1, 7);
  }

  // ----- an allocation that never ends -----

  lemma {:induction false} HangsOn(gs: seq<Group>)
    requires gs == [Group(0, 20, 1, 0), Group(21, 21, 0, 0)]
    ensures Blocked(gs) && AllocatorSpec.DoAllocate(gs, 2).Hang? && E.FileOutcome(gs, 1, 4096) == E.FileResult.NeverEnds
  {
    assert Dead(gs[1]);
    assert gs[1..] == [Group(21, 21, 0, 0)] && Reach(gs[1..]) == 0 && Reach(gs) == 1;
    hide AllocatorSpec.DoAllocate, Blocked;
    AllocationOutcome(gs, 2);
    E.OutcomeIs(gs, 1, 4096);
  }

  /** 41 blocks in groups of 21: the second group is nothing but its header. Fresh from init, a file of one block asks for
      two blocks, and the allocation never ends. */
  lemma {:induction false} FreshAllocationHangs(info: Info, aux: Aux)
    requires info == Small(21, 41) && aux == SmallAux(41)
    ensures Derived(info, aux) && Buildable(info, aux)
    ensures var gs := InitialGroups(info, aux);
            && Blocked(gs) && AllocatorSpec.DoAllocate(gs, 2).Hang?
            && E.FileOutcome(gs, 1, 4096) == E.FileResult.NeverEnds
  {
    TwoIs(21, 41);
    hide *;
    SmallGroups(21, 41, 21);
    HangsOn(InitialGroups(info, aux));
  }

  lemma TwoIs(bpg: u32, blocks: nat)
    requires 20 <= bpg <= 0x8000 && bpg + 20 <= blocks <= 2 * bpg
    ensures TwoSmall(bpg, blocks)
  {}

  // ----- two groups filled by one file -----

  lemma TwoSpent(g: Group, h: Group)
    requires g.free > 0 && h.free > 0 && g.used == 0 && h.used == 0
    ensures B.Spent([g, h], 0, 2) && B.FreeFrom([g, h], 0, 2) == g.free + h.free
    ensures B.FrontsFrom([g, h], 0, 2) == [FrontRun(g, g.free, 0), FrontRun(h, h.free, 1)]
  {
    assert B.FreeFrom([g, h], 2, 2) == 0 && B.FreeFrom([g, h], 1, 2) == h.free;
    assert B.FrontsFrom([g, h], 2, 2) == [] && B.FrontsFrom([g, h], 1, 2) == [FrontRun(h, h.free, 1)] + [];
  }

  /** A file that takes all the free blocks of two fresh groups. */
  lemma {:induction false} TwoFilled(g: Group, h: Group, r: Run, s: Run)
    requires g.free > 0 && h.free > 0 && g.used == 0 && h.used == 0
    requires r == FrontRun(g, g.free, 0) && s == FrontRun(h, h.free, 1)
    ensures var o := AllocatorSpec.DoAllocate([g, h], g.free + h.free); o.Done? && o.runs == [r, s]
  {
    TwoSpent(g, h);
    B.FillsGroups([g, h], 2);
    hide AllocatorSpec.DoAllocate, B.FreeFrom, B.FrontsFrom, B.Spent, FrontRun;
  }

  lemma {:induction false} TwoKept(gs: seq<Group>, blocks: nat, r: Run, s: Run)
    requires 0 < blocks < 0xFFFF_FFFF && AllocatorSpec.DoAllocate(gs, blocks + 1).Done?
    requires AllocatorSpec.DoAllocate(gs, blocks + 1).runs == [r, s]
    ensures r.len > 1 ==> E.KeptFor(gs, blocks).runs == [r.(len := r.len - 1), s]
    ensures r.len == 1 ==> E.KeptFor(gs, blocks).runs == []
    ensures E.FileOutcome(gs, blocks, 4096) == E.Mapped
  {
    E.KeptFacts(gs, blocks);
    E.OutcomeIs(gs, blocks, 4096);
    var o := AllocatorSpec.DoAllocate(gs, blocks + 1);
    hide AllocatorSpec.DoAllocate, E.KeptFor, S.Keep, E.FileOutcome, Total, S.Prefix;
    S.KeepFew(o.groups, o.runs);
    assert o.runs[0] == r && o.runs[0].len > 0;
    assert [r.(len := r.len - 1)] + [r, s][1..] == [r.(len := r.len - 1), s];
  }

  lemma FileWorksWhen(gs: seq<Group>, blocks: nat, b: E.Backing, r: Run, s: Run)
    requires AllocatorSpec.DoAllocate(gs, blocks + 1).Done? && AllocatorSpec.DoAllocate(gs, blocks + 1).runs == [r, s]
    requires E.FileOutcome(gs, blocks, 4096) == E.Mapped && b.data != [] && DivRoundUp(|b.data|, 4096) == blocks
    ensures F.FileWorks(gs, 4096, b) <==> r.len >= 2
  {
    hide AllocatorSpec.DoAllocate, E.FileOutcome, DivRoundUp;
  }

  // ----- a first region of one block -----

  /** A file of one block gets two regions of one block, and keeps neither. */
  ghost predicate KeepsNothing(gs: seq<Group>, b: E.Backing) {
    && AllocatorSpec.DoAllocate(gs, 2).Done? && AllocatorSpec.DoAllocate(gs, 2).runs == [Run(20, 1, 0), Run(41, 1, 1)]
    && E.KeptFor(gs, 1).runs == [] && !F.FileWorks(gs, 4096, b)
  }

  lemma {:induction false} NothingKept(gs: seq<Group>, b: E.Backing)
    requires gs == [Group(0, 20, 1, 0), Group(21, 20, 1, 0)] && 0 < |b.data| <= 4096
    ensures KeepsNothing(gs, b)
  {
    var g, h, r, s := Group(0, 20, 1, 0), Group(21, 20, 1, 0), Run(20, 1, 0), Run(41, 1, 1);
    FrontIs(g, 1, 0, r);
    FrontIs(h, 1, 1, s);
    DivRoundUpUnique(|b.data|, 4096, 1);
    hide *;
    TwoFilled(g, h, r, s);
    TwoKept(gs, 1, r, s);
    FileWorksWhen(gs, 1, b, r, s);
    KeepsNothingIs(gs, b);
  }

  lemma KeepsNothingIs(gs: seq<Group>, b: E.Backing)
    requires AllocatorSpec.DoAllocate(gs, 2).Done? && AllocatorSpec.DoAllocate(gs, 2).runs == [Run(20, 1, 0), Run(41, 1, 1)]
    requires E.KeptFor(gs, 1).runs == [] && !F.FileWorks(gs, 4096, b)
    ensures KeepsNothing(gs, b)
  {
    hide AllocatorSpec.DoAllocate, E.KeptFor, F.FileWorks;
  }

  lemma FrontIs(g: Group, len: nat, bg: nat, r: Run)
    requires r == Run(g.first + g.start, len, bg)
    ensures FrontRun(g, len, bg) == r
  {}

  /** 42 blocks in groups of 21, with one free block each: a file of one block keeps no region at all. */
  lemma {:induction false} OneBlockRegions(info: Info, aux: Aux, b: E.Backing)
    requires info == Small(21, 42) && aux == SmallAux(42) && 0 < |b.data| <= 4096
    ensures Derived(info, aux) && Buildable(info, aux) && KeepsNothing(InitialGroups(info, aux), b)
  {
    TwoIs(21, 42);
    hide *;
    SmallGroups(21, 42, 20);
    NothingKept(InitialGroups(info, aux), b);
  }

  // ----- a run that ends at the end of the image -----

  lemma SecondChunkEnds(r: Run, s: Run, b: E.Backing)
    requires r.len == 2 && s.len == 3 && s.block == 43 && b.OnDisk? && |b.data| == 5 * 4096
    ensures !V.NoChunkEnds([r, s], 2, 4096, b, 46 * 4096)
  {
    assert S.Prefix([r, s], 0) == 0 && S.Prefix([r, s], 1) == 2 && S.Prefix([r, s], 2) == 5;
    assert S.Cap([r, s], 1, 4096, 5 * 4096) == 2 * 4096 && S.Cap([r, s], 2, 4096, 5 * 4096) == 5 * 4096;
    assert V.ChunkEnds([r, s], 1, 4096, b, 46 * 4096);
  }

  lemma OneStep(info: Info, aux: Aux, gs: seq<Group>, b: E.Backing)
    requires info.blockSize > 0 && F.FileWorks(gs, info.blockSize, b) && F.EndsThere(gs, info.blockSize, b, info.len)
    ensures F.AllWork(info, aux, gs, [F.Step.File(b)], 0) && !F.NoneEnds(info, aux, gs, [F.Step.File(b)], 0)
  {
    var steps := [F.Step.File(b)];
    F.WorkAt(info, aux, gs, steps, 0);
    F.WorkAt(info, aux, F.AfterStep(info, aux, gs, steps[0]), steps, 1);
    hide F.FileWorks, F.EndsThere, F.AllWork, F.NoneEnds, F.AfterFile;
  }

  lemma {:induction false} FileEndsThere(gs: seq<Group>, b: E.Backing)
    requires gs == [Group(0, 20, 3, 0), Group(23, 20, 3, 0)] && b.OnDisk? && |b.data| == 5 * 4096
    ensures F.FileWorks(gs, 4096, b) && F.EndsThere(gs, 4096, b, 46 * 4096)
  {
    var g, h, r, s := Group(0, 20, 3, 0), Group(23, 20, 3, 0), Run(20, 3, 0), Run(43, 3, 1);
    FrontIs(g, 3, 0, r);
    FrontIs(h, 3, 1, s);
    DivRoundUpUnique(|b.data|, 4096, 5);
    SecondChunkEnds(Run(20, 2, 0), s, b);
    assert r.(len := r.len - 1) == Run(20, 2, 0);
    hide *;
    TwoFilled(g, h, r, s);
    TwoKept(gs, 5, r, s);
    FileWorksWhen(gs, 5, b, r, s);
    V.EndsWhen(gs, 5, 4096, b, 46 * 4096);
    F.EndsThereIs(gs, 4096, 5, b, 46 * 4096);
  }

  /** 46 blocks in groups of 23, and one file of five blocks on disk: it is mapped to the first two free blocks and to the
      three at the end of the device, and the image is not written. */
  lemma {:induction false} RunReachesTheEnd(info: Info, aux: Aux, data: seq<byte>)
    requires info == Small(23, 46) && aux == SmallAux(46) && |data| == 5 * 4096
    ensures Derived(info, aux) && Buildable(info, aux)
    ensures var steps := [F.Step.File(E.OnDisk(data))];
            && info.blockSize > 0 && F.StepsOk(steps, aux, info.blockSize)
            && F.AllWork(info, aux, InitialGroups(info, aux), steps, 0) && !F.NoneEnds(info, aux, InitialGroups(info, aux), steps, 0)
  {
    TwoIs(23, 46);
    SmallFields(23, 46);
    hide *;
    SmallGroups(23, 46, 20);
    DivRoundUpUnique(|data|, 4096, 5);
    StepFits(E.OnDisk(data), aux);
    FileEndsThere(InitialGroups(info, aux), E.OnDisk(data));
    OneStep(info, aux, InitialGroups(info, aux), E.OnDisk(data));
  }

  lemma StepFits(b: E.Backing, aux: Aux)
    requires DivRoundUp(|b.data|, 4096) == 5
    ensures F.StepsOk([F.Step.File(b)], aux, 4096)
  {
    hide DivRoundUp;
  }

  // ----- more regions than the extent block holds -----

  lemma {:induction false} FreshGroup(info: Info, aux: Aux, i: nat)
    requires Buildable(info, aux) && i < aux.groups
    ensures var g := InitialGroups(info, aux)[i];
            g.used == 0 && g.start > 0 && g.free == GroupSize(info, aux, i) - GroupHeader(info, aux, i)
  {
    Sizes(info, aux, i);
    hide Buildable, GroupSize, GroupHeader, FirstBlock;
  }

  lemma FirstOnDevice(info: Info, aux: Aux)
    requires Buildable(info, aux) && aux.groups > 0
    ensures aux.firstDataBlock <= aux.lenBlocks < 0x1_0000_0000
  {
    Sizes(info, aux, 0);
    FirstOfFirst(info, aux);
    hide Sound, GroupSize, GroupHeader, FirstBlock;
  }

  lemma FreeBelow(info: Info, aux: Aux, len: nat)
    requires Buildable(info, aux) && aux.groups > 0 && AllocatorSpec.DoAllocate(InitialGroups(info, aux), len).Done?
    ensures len < 0x1_0000_0000
  {
    FirstOnDevice(info, aux);
    hide *;
    FreshFree(info, aux);
    AllocationConserves(InitialGroups(info, aux), len);
  }

  lemma StartsSpent(gs: seq<Group>, k: nat)
    requires k <= |gs| && forall i :: 0 <= i < k ==> gs[i].free > 0 && gs[i].used == 0
    ensures B.Spent(gs, 0, k)
  {}

  /** Fresh from init: a file for which no single group is large enough, and which takes all the free blocks of the first
      k groups, overruns its extent block when that has fewer entries than k. */
  lemma {:induction false} OverrunFromInit(info: Info, aux: Aux, k: nat)
    requires Buildable(info, aux) && k <= aux.groups && 3 < k < info.blockSize && T.MaxEntries(info.blockSize) < k
    requires var gs := InitialGroups(info, aux);
             && gs[0].free >= 2 && (forall i :: 0 <= i < k ==> gs[i].free > 0)
             && forall i :: 0 <= i < |gs| ==> gs[i].free < B.FreeFrom(gs, 0, k)
    ensures var gs := InitialGroups(info, aux);
            B.FreeFrom(gs, 0, k) > 0 && E.FileOutcome(gs, B.FreeFrom(gs, 0, k) - 1, info.blockSize) == E.Overflow
  {
    var gs := InitialGroups(info, aux);
    forall i | 0 <= i < k
      ensures gs[i].used == 0 && gs[i].start > 0
    {
      FreshGroup(info, aux, i);
    }
    hide Buildable, InitialGroups, B.FreeFrom, B.FrontsFrom, B.Spent, AllocatorSpec.DoAllocate, E.FileOutcome, T.MaxEntries;
    StartsSpent(gs, k);
    assert gs[0].free < B.FreeFrom(gs, 0, k);
    B.FillsGroups(gs, k);
    FreeBelow(info, aux, B.FreeFrom(gs, 0, k));
    B.FilledGroupsOverrun(gs, k, info.blockSize);
  }

  lemma {:induction false} FreeExceeds(gs: seq<Group>, j: nat, k: nat, i: nat)
    requires j <= i < k <= |gs| && j + 2 <= k && forall m :: j <= m < k ==> gs[m].free > 0
    ensures gs[i].free < B.FreeFrom(gs, j, k)
    decreases k - j
  {
    B.FreeAtLeast(gs, j + 1, k);
    if j < i {
      if j + 3 <= k {
        FreeExceeds(gs, j + 1, k, i);
      } else {
        assert B.FreeFrom(gs, k, k) == 0;
      }
    }
  }

  /** 84 groups of 8192 blocks of 1K, and 5000 blocks more. */
  const WIDE: Info := Info(693129 * 1024, 1024, 8192, 16, 256, true)
  const WIDE_AUX: Aux := Aux(1, 693129, 4, 85, 256, 0x1_0000, 0, 3, 256)

  lemma WideUntrimmed()
    ensures Untrimmed(WIDE) == WIDE_AUX && Div(693129 * 1024, 1024) == 693129 && Divides(1024, 693129 * 1024)
  {
    WholeBlocks(693129, 1024);
    DivRoundUpUnique(693128, 8192, 85);
    DivRoundUpUnique(16 * 256, 1024, 4);
    DivRoundUpUnique(85 * 32, 1024, 3);
    DivRoundUpUnique(85 * 1024 * 32, 1024, 2720);
    hide Div, Divides, Untrimmed, DivRoundUp;
    UntrimmedExact(WIDE);
    IndirectSizes(WIDE);
  }

  lemma WideSizes(i: nat)
    requires i < 85
    ensures 5000 <= GroupSize(WIDE, WIDE_AUX, i) && 2 <= GroupHeader(WIDE, WIDE_AUX, i) <= 266
    ensures HeaderBlocks(WIDE_AUX, true) == 266 && FirstBlock(WIDE, WIDE_AUX, 0) == 1 && FirstBlock(WIDE, WIDE_AUX, 84) == 688129
  {
    hide HasSuperBlock;
  }

  lemma WideFields()
    ensures WIDE.blockSize == 1024 && WIDE.blocksPerGroup == 8192 && WIDE.inodesPerGroup * WIDE.inodeSize == 4096
    ensures WIDE.len == 693129 * 1024 && WIDE_AUX.groups == 85 && WIDE_AUX.firstDataBlock == 1 && WIDE_AUX.lenBlocks == 693129
    ensures WIDE.blockSize > 0
  {}

  lemma WideTrim()
    ensures Trimmed(WIDE, WIDE_AUX) == WIDE_AUX
  {
    assert 693129 % 8192 == 5001;
    hide HasSuperBlock;
  }

  lemma {:induction false} WideStart()
    ensures Derived(WIDE, WIDE_AUX) && Buildable(WIDE, WIDE_AUX)
  {
    WideUntrimmed();
    WideSizes(0);
    WideSizes(84);
    WideTrim();
    WideFields();
    FirstHeaderHeld(WIDE, WIDE_AUX, GroupHeader(WIDE, WIDE_AUX, 0));
    hide Untrimmed, Trimmed, GroupHeader, GroupSize, FirstBlock, HeaderBlocks, Div, Divides, HoldsFirstHeader, Buildable, Start;
    hide WIDE, WIDE_AUX;
    assert Plausible(WIDE) && Trims(WIDE);
    hide Plausible, Trims;
    StartBuildable(WIDE);
    StartIs(WIDE);
  }

  /** On that device, a file for all the free blocks overruns its extent block of 84 entries. */
  lemma {:induction false} TableOverrun()
    ensures Derived(WIDE, WIDE_AUX) && Buildable(WIDE, WIDE_AUX)
    ensures var gs := InitialGroups(WIDE, WIDE_AUX);
            |gs| == 85 && B.FreeFrom(gs, 0, 85) > 0 && E.FileOutcome(gs, B.FreeFrom(gs, 0, 85) - 1, 1024) == E.Overflow
  {
    WideFields();
    assert T.MaxEntries(1024) == 84;
    hide *;
    WideStart();
    var gs := InitialGroups(WIDE, WIDE_AUX);
    forall i | 0 <= i < 85
      ensures gs[i].free >= 2
    {
      FreshGroup(WIDE, WIDE_AUX, i);
      WideSizes(i);
    }
    forall i | 0 <= i < |gs|
      ensures gs[i].free < B.FreeFrom(gs, 0, 85)
    {
      FreeExceeds(gs, 0, 85, i);
    }
    OverrunFromInit(WIDE, WIDE_AUX, 85);
  }

  // ----- extents of 2^15 blocks and more -----

  lemma OneRegion(gs: seq<Group>, len: nat, r: Run)
    requires |gs| == 1 && len <= gs[0].free && r == FrontRun(gs[0], len, 0)
    ensures AllocatorSpec.DoAllocate(gs, len) == Done([r], GrabAt(gs, 0, len))
  {
    assert FirstFit(gs, len, 0) == 0;
  }

  lemma {:induction false} OneRegionKept(gs: seq<Group>, blocks: nat, r: Run, s: Run)
    requires |gs| == 1 && blocks + 1 <= gs[0].free && 0 < blocks < 0xFFFF_FFFE && r == FrontRun(gs[0], blocks + 1, 0)
    requires s == r.(len := blocks)
    ensures E.KeptFor(gs, blocks).runs == [s] && E.FileOutcome(gs, blocks, 16384) == E.Mapped
  {
    OneRegion(gs, blocks + 1, r);
    E.KeptFacts(gs, blocks);
    S.KeepFew(GrabAt(gs, 0, blocks + 1), [r]);
    E.OutcomeIs(gs, blocks, 16384);
    hide AllocatorSpec.DoAllocate, E.KeptFor, S.Keep, E.FileOutcome, FrontRun;
    assert [s] + [r][1..] == [s];
  }

  lemma {:induction false} OneSlot(s: Run, fb: nat)
    requires s == Run(6, 100000, 0)
    ensures T.SlotsOf([s], 1) == [T.Slot(0, 34464, 0, 6)] && S.ExtentsOf([s], 1) == [S.Extent(0, 100000, 6)]
    ensures T.SlotLookup(T.SlotsOf([s], 1), fb, T.INIT_MAX_LEN) == -1
    ensures T.SlotLookup(T.SlotsOf([s], 1), 34464, 0xFFFF) == -1
    ensures S.Lookup(S.ExtentsOf([s], 1), 34464) == 34470
  {
    assert S.Prefix([s], 0) == 0 && S.ExtentAt([s], 0) == S.Extent(0, 100000, 6);
    assert S.ExtentsOf([s], 1) == [] + [S.Extent(0, 100000, 6)];
    assert T.SlotsOf([s], 1) == [] + [T.Slot(0, 34464, 0, 6)];
    assert T.SlotLookup([], fb, T.INIT_MAX_LEN) == -1 == T.SlotLookup([], 34464, 0xFFFF);
    hide T.SlotsOf, S.ExtentsOf;
  }

  /** A file of 100000 blocks is mapped to one region. Its one extent is stored with 34464 blocks: block 34464 of the file is
      not found, and to a reader that knows EXT_INIT_MAX_LEN block fb is not, whatever it is. */
  ghost predicate CutShort(gs: seq<Group>, fb: nat) {
    && E.FileOutcome(gs, 100000, 16384) == E.Mapped && AllocatorSpec.DoAllocate(gs, 100000 + 1).Done?
    && var runs := E.KeptFor(gs, 100000).runs;
       && runs == [Run(6, 100000, 0)]
       && S.Lookup(S.ExtentsOf(runs, 1), 34464) == 34470
       && T.SlotLookup(T.SlotsOf(runs, 1), 34464, 0xFFFF) == -1
       && T.SlotLookup(T.SlotsOf(runs, 1), fb, T.INIT_MAX_LEN) == -1
  }

  lemma {:induction false} CutShortOn(gs: seq<Group>, fb: nat)
    requires gs == [Group(0, 6, 130000, 0)]
    ensures CutShort(gs, fb)
  {
    var r, s := Run(6, 100001, 0), Run(6, 100000, 0);
    FrontIs(gs[0], 100001, 0, r);
    OneRegion(gs, 100000 + 1, r);
    OneRegionKept(gs, 100000, r, s);
    OneSlot(s, fb);
    hide AllocatorSpec.DoAllocate, E.KeptFor, E.FileOutcome, T.SlotsOf, S.ExtentsOf, T.SlotLookup, S.Lookup, FrontRun;
  }

  /** 130006 blocks of 16K in one group. */
  const LONG: Info := Info(130006 * 16384, 16384, 131072, 64, 256, true)
  const LONG_AUX: Aux := Aux(0, 130006, 1, 1, 4096, 0x100_0000, 0, 1, 1)

  lemma LongUntrimmed()
    ensures Untrimmed(LONG) == LONG_AUX
  {
    WholeBlocks(130006, 16384);
    DivRoundUpUnique(130006, 131072, 1);
    DivRoundUpUnique(64 * 256, 16384, 1);
    DivRoundUpUnique(32, 16384, 1);
    DivRoundUpUnique(1024 * 32, 16384, 2);
    hide Div, Divides, Untrimmed, DivRoundUp;
    UntrimmedExact(LONG);
    IndirectSizes(LONG);
  }

  lemma LongTrim()
    ensures Trimmed(LONG, LONG_AUX) == LONG_AUX
  {
    FirstGroupHasCopies(true);
    hide HasSuperBlock;
  }

  lemma LongFields()
    ensures LONG.blocksPerGroup == 131072 == 8 * LONG.blockSize && LONG_AUX.groups == 1 && LONG_AUX.lenBlocks == 130006
    ensures LONG.blockSize == 16384 && FirstBlock(LONG, LONG_AUX, 1) == 131072
  {}

  lemma LongHeader(i: nat)
    requires i < 1
    ensures GroupHeader(LONG, LONG_AUX, i) == 6
  {
    FirstGroupHasCopies(true);
    assert LONG.sparse;
    hide HasSuperBlock, LONG;
  }

  lemma LongSizes(i: nat)
    requires i < 1
    ensures FirstBlock(LONG, LONG_AUX, i) == 0 && GroupSize(LONG, LONG_AUX, i) == 130006
  {
    LongFields();
    hide LONG, GroupHeader;
  }

  lemma LongBuildable()
    ensures Buildable(LONG, LONG_AUX)
  {
    LongFields();
    hide LONG, LONG_AUX, GroupHeader, GroupSize, FirstBlock;
    forall i | 0 <= i < LONG_AUX.groups
      ensures GroupHeader(LONG, LONG_AUX, i) <= GroupSize(LONG, LONG_AUX, i)
    {
      LongSizes(i);
      LongHeader(i);
    }
  }

  lemma {:induction false} LongGroups()
    ensures Buildable(LONG, LONG_AUX) && InitialGroups(LONG, LONG_AUX) == [Group(0, 6, 130000, 0)]
  {
    LongFields();
    hide *;
    LongSizes(0);
    LongHeader(0);
    LongBuildable();
    GroupIs(LONG, LONG_AUX, 0, 0, 130006, 6, 6, 130000);
    OneGroup(LONG, LONG_AUX, Group(0, 6, 130000, 0));
  }

  lemma OneGroup(info: Info, aux: Aux, g: Group)
    requires Buildable(info, aux) && aux.groups == 1 && InitialGroup(info, aux, 0) == g
    ensures InitialGroups(info, aux) == [g]
  {
    hide Buildable, InitialGroup;
  }

  /** Fresh from init on that device, a file of 100000 blocks is cut short. */
  lemma {:induction false} LongExtentCut(fb: nat)
    ensures Start(LONG) == LONG_AUX && Buildable(LONG, LONG_AUX) && CutShort(InitialGroups(LONG, LONG_AUX), fb)
  {
    LongUntrimmed();
    LongTrim();
    StartIs(LONG);
    hide *;
    LongGroups();
    CutShortOn(InitialGroups(LONG, LONG_AUX), fb);
  }
}
