/** The derived parameters of the filesystem, superblock groups, and where each group keeps its header. */
module Geometry {
  import opened Words

  // ----- powers -----

  function Power(b: nat, k: nat): nat {
    if k == 0 then 1 else b * Power(b, k - 1)
  }

  lemma {:induction false} PowerGrows(b: nat, k: nat)
    requires b > 1 && k > 0
    ensures Power(b, k) >= b
  {
    if k > 1 {
      PowerGrows(b, k - 1);
      MulGap(0, Power(b, k - 1), b);
      MulGap(1, Power(b, k - 1), b);
    } else {
      assert Power(b, 1) == b * 1;
    }
  }

  lemma PowerOne(b: nat)
    ensures Power(b, 1) == b
  {
    assert Power(b, 0) == 1;
  }

  ghost predicate IsPower(a: int, b: nat) {
    exists k: nat :: k > 0 && a == Power(b, k)
  }

  lemma PowerBase(a: int, b: nat)
    requires b > 1 && a <= b
    ensures IsPower(a, b) <==> a == b
  {
    if IsPower(a, b) {
      var k: nat :| k > 0 && a == Power(b, k);
      PowerGrows(b, k);
    }
    PowerOne(b);
  }

  lemma PowerDivided(a: int, b: nat)
    requires b > 1 && a > b
    ensures IsPower(a, b) <==> a % b == 0 && IsPower(a / b, b)
  {
    if IsPower(a, b) {
      var k: nat :| k > 0 && a == Power(b, k);
      PowerOne(b);
      ModUnique(a, b, Power(b, k - 1), 0);
    }
    if a % b == 0 && IsPower(a / b, b) {
      var k: nat :| k > 0 && a / b == Power(b, k);
      var next := k + 1;
      assert a == b * (a / b) == Power(b, next);
    }
  }

  lemma Shrinks(x: nat, b: nat)
    requires 1 < b < x
    ensures 0 < x / b < x
  {
    DivBounds(x, b);
    MulGap(1, b, x / b);
  }

  /** is_power_of: whether a is b to some positive power. */
  method IsPowerOf(a: int, b: nat) returns (r: bool)
    requires b > 1
    ensures r <==> IsPower(a, b)
  {
    var x := a;
    hide IsPower;
    while x > b
      invariant IsPower(x, b) <==> IsPower(a, b)
      decreases x
    {
      PowerDivided(x, b);
      if x % b != 0 {
        return false;
      }
      Shrinks(x, b);
      x := x / b;
    }
    PowerBase(x, b);
    r := x == b;
  }

  /** The groups that keep a copy of the superblock. */
  ghost predicate HasSuperBlock(sparse: bool, bg: int) {
    !sparse || bg == 0 || bg == 1 || IsPower(bg, 3) || IsPower(bg, 5) || IsPower(bg, 7)
  }

  /** ext4_bg_has_super_block */
  method BgHasSuperBlock(sparse: bool, bg: int) returns (r: bool)
    ensures r <==> HasSuperBlock(sparse, bg)
  {
    if !sparse {
      return true;
    }
    if bg == 0 || bg == 1 {
      return true;
    }
    var three := IsPowerOf(bg, 3);
    var five := IsPowerOf(bg, 5);
    var seven := IsPowerOf(bg, 7);
    r := three || five || seven;
  }

  // ----- derived parameters -----

  datatype Info = Info(len: nat, blockSize: u32, blocksPerGroup: u32, inodesPerGroup: u32, inodeSize: u32, sparse: bool)

  datatype Aux = Aux(firstDataBlock: u32, lenBlocks: nat, inodeTableBlocks: u32, groups: u32, blocksPerInd: u32,
                     blocksPerDind: u32, blocksPerTind: u32, bgDescBlocks: u32, bgDescReserveBlocks: u32)

  const TWO64: int := 0x1_0000_0000_0000_0000

  /** Truncation to 32 and to 64 bits. */
  function Wrap(x: int): u32 { x % TWO32 }

  function Wrap64(x: int): nat { x % TWO64 }

  /** Blocks of a header with or without the superblock copy. */
  function HeaderBlocks(aux: Aux, super: bool): nat {
    2 + aux.inodeTableBlocks + (if super then 1 + aux.bgDescBlocks + aux.bgDescReserveBlocks else 0)
  }

  /** ext4_create_fs_aux_info up to the trimming, in the source's unsigned arithmetic. */
  function Untrimmed(info: Info): Aux
    requires info.blockSize > 0 && info.blocksPerGroup > 0
  {
    var bs := info.blockSize;
    var first := if bs > 1024 then 0 else 1;
    var lenBlocks := Wrap64(Div(info.len, bs));
    var inodeTable := Wrap(Div(Wrap(Wrap(info.inodesPerGroup * info.inodeSize) + bs - 1), bs));
    var groups := Wrap(Div(Wrap64(lenBlocks - first + info.blocksPerGroup - 1), info.blocksPerGroup));
    var ind := bs / 4;
    var dind := Wrap(ind * ind);
    var desc := Wrap(DivRoundUp(groups * 32, bs));
    var reserve := Wrap(DivRoundUp(Wrap(groups * 1024) * 32, bs) - desc);
    Aux(first, lenBlocks, inodeTable, groups, ind, dind, Wrap(dind * dind), desc, if reserve > ind then ind else reserve)
  }

  /** The last group is dropped when what is left for it cannot hold its header. */
  ghost function Trimmed(info: Info, aux: Aux): Aux
    requires info.blocksPerGroup > 0
  {
    var size := aux.lenBlocks % info.blocksPerGroup;
    var header := Wrap(HeaderBlocks(aux, HasSuperBlock(info.sparse, aux.groups - 1)));
    if 0 < size < header then aux.(groups := (aux.groups - 1) % TWO32, lenBlocks := aux.lenBlocks - size) else aux
  }

  // ----- the groups -----

  function FirstBlock(info: Info, aux: Aux, i: nat): int { aux.firstDataBlock + i * info.blocksPerGroup }

  /** The blocks of the device that fall into group i. */
  function GroupSize(info: Info, aux: Aux, i: nat): int {
    Min(info.blocksPerGroup, aux.lenBlocks - FirstBlock(info, aux, i))
  }

  ghost function GroupHeader(info: Info, aux: Aux, i: nat): nat {
    HeaderBlocks(aux, HasSuperBlock(info.sparse, i))
  }

  /** The groups cover the device, and each holds its own header. */
  ghost predicate Sound(info: Info, aux: Aux) {
    && aux.lenBlocks <= FirstBlock(info, aux, aux.groups)
    && forall i :: 0 <= i < aux.groups ==> GroupHeader(info, aux, i) <= GroupSize(info, aux, i)
  }

  /** No parameter wraps, and a full group holds any header. */
  ghost predicate Reasonable(info: Info, aux: Aux) {
    && aux.firstDataBlock <= 1
    && aux.firstDataBlock < aux.lenBlocks
    && aux.lenBlocks + info.blocksPerGroup < TWO32
    && HeaderBlocks(aux, true) + aux.firstDataBlock <= info.blocksPerGroup
    && aux.groups == DivRoundUp(aux.lenBlocks - aux.firstDataBlock, info.blocksPerGroup)
  }

  /** The parameters computed in unsigned arithmetic are reasonable when the device is far enough below 2^32 blocks
      and a full group holds any header. */
  lemma UntrimmedReasonable(info: Info)
    requires info.blockSize > 0 && info.blocksPerGroup > 0
    requires Div(info.len, info.blockSize) + info.blocksPerGroup < TWO32
    requires Untrimmed(info).firstDataBlock < Div(info.len, info.blockSize)
    requires HeaderBlocks(Untrimmed(info), true) + Untrimmed(info).firstDataBlock <= info.blocksPerGroup
    ensures Reasonable(info, Untrimmed(info))
  {
    var n, first := Div(info.len, info.blockSize), if info.blockSize > 1024 then 0 else 1;
    NoWrap64(n);
    NoWrap64(n - first + info.blocksPerGroup - 1);
    GroupsFit(n - first, info.blocksPerGroup);
    hide Wrap, Wrap64, Div, DivRoundUp;
  }

  lemma Unwrapped(x: int)
    requires 0 <= x < TWO32
    ensures Wrap(x) == x
  {}

  lemma DivSmaller(n: nat, d: nat)
    requires d > 0
    ensures 0 <= Div(n, d) <= n
  {
    DivBounds(n, d);
    hide Div;
    MulAtLeast(Div(n, d), d);
  }

  /** Within these sizes no step of the computation wraps, and each parameter is its plain formula. */
  lemma UntrimmedExact(info: Info)
    requires info.blockSize >= 1024 && info.blocksPerGroup > 0
    requires Div(info.len, info.blockSize) + info.blocksPerGroup < TWO32 && 0 < Div(info.len, info.blockSize)
    requires 0 <= info.inodesPerGroup * info.inodeSize && info.inodesPerGroup * info.inodeSize + info.blockSize < TWO32
    requires DivRoundUp(Div(info.len, info.blockSize) - (if info.blockSize > 1024 then 0 else 1), info.blocksPerGroup) < 0x40_0000
    ensures var aux, bs: nat := Untrimmed(info), info.blockSize;
            && aux.firstDataBlock == (if bs > 1024 then 0 else 1) && aux.lenBlocks == Div(info.len, bs)
            && aux.inodeTableBlocks == DivRoundUp(info.inodesPerGroup * info.inodeSize, bs)
            && aux.groups == DivRoundUp(aux.lenBlocks - aux.firstDataBlock, info.blocksPerGroup)
            && aux.bgDescBlocks == DivRoundUp(aux.groups * 32, bs)
            && aux.bgDescReserveBlocks == Min(DivRoundUp(aux.groups * 1024 * 32, bs) - aux.bgDescBlocks, bs / 4)
  {
    var bs: nat, n := info.blockSize, Div(info.len, info.blockSize);
    var first := if bs > 1024 then 0 else 1;
    var inodes: nat := info.inodesPerGroup * info.inodeSize;
    var g := DivRoundUp(n - first, info.blocksPerGroup);
    NoWrap64(n);
    NoWrap64(n - first + info.blocksPerGroup - 1);
    GroupsFit(n - first, info.blocksPerGroup);
    Unwrapped(inodes);
    Unwrapped(inodes + bs - 1);
    DivSmaller(inodes + bs - 1, bs);
    Unwrapped(Div(inodes + bs - 1, bs));
    DivIsRoundUp(inodes, bs);
    Unwrapped(g * 1024);
    DescriptorBlocks(g, bs);
    Unwrapped(DivRoundUp(g * 32, bs));
    Unwrapped(DivRoundUp(g * 1024 * 32, bs) - DivRoundUp(g * 32, bs));
    hide Wrap, Wrap64, Div, DivRoundUp;
  }

  lemma DescriptorBlocks(g: nat, bs: nat)
    requires g < 0x40_0000 && bs >= 1024
    ensures 0 <= DivRoundUp(g * 32, bs) <= DivRoundUp(g * 1024 * 32, bs) < TWO32
  {
    DivRoundUpGrows(g * 32, g * 1024 * 32, bs);
    DivRoundUpBounds(g * 1024 * 32, bs);
    var blocks: nat := DivRoundUp(g * 1024 * 32, bs);
    hide DivRoundUp;
    MulGap(1023, bs, g * 32);
    MulGap(g * 32, blocks, bs);
    assert bs * (g * 32) == g * 32 * bs;
  }

  lemma DivRoundUpGrows(x: nat, y: nat, d: nat)
    requires d > 0 && x <= y
    ensures 0 <= DivRoundUp(x, d) <= DivRoundUp(y, d)
  {
    DivMonotone(x + d - 1, y + d - 1, d);
    DivIsRoundUp(x, d);
    DivIsRoundUp(y, d);
    hide Div, DivRoundUp;
  }

  lemma NoWrap64(x: int)
    requires 0 <= x < TWO64
    ensures Wrap64(x) == x
  {}

  lemma GroupsFit(n: nat, d: nat)
    requires d > 0 && n + d < TWO32
    ensures Wrap(Div(n + d - 1, d)) == DivRoundUp(n, d)
  {
    DivBounds(n + d - 1, d);
    hide Div;
    MulAtLeast(Div(n + d - 1, d), d);
    DivIsRoundUp(n, d);
  }

  lemma MulAtLeast(q: nat, d: nat)
    requires d > 0
    ensures q * d >= q
  {
    MulNonNegative(q, d - 1);
    assert q * d == q * (d - 1) + q;
  }

  lemma DivIsRoundUp(n: nat, d: nat)
    requires d > 0
    ensures Div(n + d - 1, d) == DivRoundUp(n, d)
  {}

  /** The assignments of ext4_create_fs_aux_info in front of the trimming, one parameter after the other. */
  method DeriveParameters(info: Info) returns (aux: Aux)
    requires info.blockSize > 0 && info.blocksPerGroup > 0
    ensures aux == Untrimmed(info)
  {
    hide Wrap, Wrap64, Div, DivRoundUp;
    var bs := info.blockSize;
    aux := Aux(if bs > 1024 then 0 else 1, 0, 0, 0, 0, 0, 0, 0, 0);
    aux := aux.(lenBlocks := Wrap64(Div(info.len, bs)));
    var inodeBytes: nat := Wrap(info.inodesPerGroup * info.inodeSize);
    aux := aux.(inodeTableBlocks := Wrap(Div(Wrap(inodeBytes + bs - 1), bs)));
    var rounded := Wrap64(aux.lenBlocks - aux.firstDataBlock + info.blocksPerGroup - 1);
    aux := aux.(groups := Wrap(Div(rounded, info.blocksPerGroup)));
    aux := aux.(blocksPerInd := bs / 4);
    aux := aux.(blocksPerDind := Wrap(aux.blocksPerInd * aux.blocksPerInd));
    aux := aux.(blocksPerTind := Wrap(aux.blocksPerDind * aux.blocksPerDind));
    aux := aux.(bgDescBlocks := Wrap(DivRoundUp(aux.groups * 32, bs)));
    aux := aux.(bgDescReserveBlocks := Wrap(DivRoundUp(Wrap(aux.groups * 1024) * 32, bs) - aux.bgDescBlocks));
    if aux.bgDescReserveBlocks > aux.blocksPerInd {
      aux := aux.(bgDescReserveBlocks := aux.blocksPerInd);
    }
  }

  lemma LastGroupDropped(aux: Aux)
    ensures Wrap(aux.groups - 1) == (aux.groups - 1) % TWO32
  {}

  lemma WrapSum(x: nat, y: nat)
    ensures Wrap(Wrap(x) + y) == Wrap(x + y)
  {}

  /** ext4_create_fs_aux_info */
  method CreateFsAuxInfo(info: Info) returns (aux: Aux)
    requires info.blockSize > 0 && info.blocksPerGroup > 0
    ensures aux == Trimmed(info, Untrimmed(info))
  {
    hide HasSuperBlock, Untrimmed, Wrap;
    aux := DeriveParameters(info);
    LastGroupDropped(aux);
    var lastGroupSize := aux.lenBlocks % info.blocksPerGroup;
    var lastHeaderSize: u32 := Wrap(2 + aux.inodeTableBlocks);
    var super := BgHasSuperBlock(info.sparse, aux.groups - 1);
    if super {
      WrapSum(2 + aux.inodeTableBlocks, 1 + aux.bgDescBlocks + aux.bgDescReserveBlocks);
      lastHeaderSize := Wrap(lastHeaderSize + (1 + aux.bgDescBlocks + aux.bgDescReserveBlocks));
    }
    if 0 < lastGroupSize < lastHeaderSize {
      aux := aux.(groups := Wrap(aux.groups - 1), lenBlocks := aux.lenBlocks - lastGroupSize);
    }
  }

  lemma HeaderFits(info: Info, aux: Aux, i: nat)
    requires HeaderBlocks(aux, true) + aux.firstDataBlock <= info.blocksPerGroup
    ensures 2 <= GroupHeader(info, aux, i) && GroupHeader(info, aux, i) + aux.firstDataBlock <= info.blocksPerGroup
  {
    hide HasSuperBlock;
  }

  /** Groups in front of the last one are full. */
  lemma FullGroup(info: Info, aux: Aux, i: nat, n: nat)
    requires i < n && FirstBlock(info, aux, n) <= aux.lenBlocks
    ensures GroupSize(info, aux, i) == info.blocksPerGroup
    ensures FirstBlock(info, aux, i) + info.blocksPerGroup <= aux.lenBlocks
  {
    MulGap(i, n, info.blocksPerGroup);
  }

  /** Groups is sound when all but the last are full and the last holds its header. */
  lemma SoundByLast(info: Info, aux: Aux)
    requires aux.groups > 0 && HeaderBlocks(aux, true) + aux.firstDataBlock <= info.blocksPerGroup
    requires FirstBlock(info, aux, aux.groups - 1) <= aux.lenBlocks <= FirstBlock(info, aux, aux.groups)
    ensures Sound(info, aux) <==> GroupHeader(info, aux, aux.groups - 1) <= GroupSize(info, aux, aux.groups - 1)
  {
    forall i | 0 <= i < aux.groups
      ensures i < aux.groups - 1 ==> GroupHeader(info, aux, i) <= GroupSize(info, aux, i)
    {
      HeaderFits(info, aux, i);
      if i < aux.groups - 1 {
        FullGroup(info, aux, i, aux.groups - 1);
      }
    }
    hide GroupHeader, GroupSize;
  }

  lemma NextFirst(info: Info, aux: Aux, i: nat)
    ensures FirstBlock(info, aux, i + 1) == FirstBlock(info, aux, i) + info.blocksPerGroup
  {}

  lemma LastBounds(n: nat, g: nat, bpg: nat)
    requires bpg > 0 && n > 0 && g == DivRoundUp(n, bpg)
    ensures g > 0 && 0 <= (g - 1) * bpg < n <= g * bpg == (g - 1) * bpg + bpg
  {
    DivRoundUpBounds(n, bpg);
    hide DivRoundUp;
    MulGap(g, 0, bpg);
    assert g > 0;
    MulNonNegative(g - 1, bpg);
  }

  /** The blocks in the last group. */
  lemma LastGroup(info: Info, aux: Aux)
    requires Reasonable(info, aux)
    ensures aux.groups > 0
    ensures var last := aux.lenBlocks - FirstBlock(info, aux, aux.groups - 1);
            0 < last <= info.blocksPerGroup && GroupSize(info, aux, aux.groups - 1) == last
    ensures aux.lenBlocks <= FirstBlock(info, aux, aux.groups)
  {
    LastBounds(aux.lenBlocks - aux.firstDataBlock, aux.groups, info.blocksPerGroup);
    hide DivRoundUp;
  }

  /** The size the trimming looks at. */
  lemma TrimSize(info: Info, aux: Aux)
    requires Reasonable(info, aux) && aux.groups > 0
    requires 0 <= aux.lenBlocks - FirstBlock(info, aux, aux.groups - 1)
    ensures var last := aux.lenBlocks - FirstBlock(info, aux, aux.groups - 1);
            aux.lenBlocks % info.blocksPerGroup == (last + aux.firstDataBlock) % info.blocksPerGroup
  {
    var last := aux.lenBlocks - FirstBlock(info, aux, aux.groups - 1);
    SameRemainder(aux.lenBlocks, last + aux.firstDataBlock, aux.groups - 1, info.blocksPerGroup);
    hide DivRoundUp;
  }

  lemma SameRemainder(x: nat, y: nat, q: nat, d: nat)
    requires d > 0 && x == q * d + y
    ensures x % d == y % d
  {
    ModUnique(x, d, q + y / d, y % d) by {
      assert y == d * (y / d) + y % d;
      assert d * (q + y / d) == q * d + d * (y / d);
    }
  }

  lemma SmallMod(x: nat, d: nat)
    requires d > 0
    ensures x < d ==> x % d == x
    ensures x == d ==> x % d == 0
    ensures d > 1 && x == d + 1 ==> x % d == 1
  {
    if x < d {
      ModUnique(x, d, 0, x);
    } else if x == d {
      ModUnique(x, d, 1, 0);
    } else if d > 1 && x == d + 1 {
      ModUnique(x, d, 1, 1);
    }
  }

  /** The trimmed size, for the last group's real size. */
  lemma TrimCases(info: Info, aux: Aux)
    requires Reasonable(info, aux)
    ensures aux.groups > 0
    ensures var last, size := aux.lenBlocks - FirstBlock(info, aux, aux.groups - 1), aux.lenBlocks % info.blocksPerGroup;
            && 0 < last <= info.blocksPerGroup
            && GroupSize(info, aux, aux.groups - 1) == last
            && (last + aux.firstDataBlock < info.blocksPerGroup ==> size == last + aux.firstDataBlock)
            && (last + aux.firstDataBlock == info.blocksPerGroup ==> size == 0)
            && (last + aux.firstDataBlock > info.blocksPerGroup ==> size == 1)
    ensures FirstBlock(info, aux, aux.groups - 1) < aux.lenBlocks <= FirstBlock(info, aux, aux.groups)
  {
    LastGroup(info, aux);
    TrimSize(info, aux);
    var last := aux.lenBlocks - FirstBlock(info, aux, aux.groups - 1);
    hide DivRoundUp, FirstBlock, GroupSize;
    SmallMod(last + aux.firstDataBlock, info.blocksPerGroup);
  }

  /** Dropping the last group leaves the ones in front of it, all full. */
  lemma Dropped(info: Info, aux: Aux, t: Aux)
    requires Reasonable(info, aux) && aux.groups > 1
    requires t == aux.(groups := aux.groups - 1, lenBlocks := FirstBlock(info, aux, aux.groups - 1) - aux.firstDataBlock)
    ensures Sound(info, t)
  {
    NextFirst(info, t, t.groups - 1);
    HeaderFits(info, t, t.groups - 1);
    MulNonNegative(t.groups - 1, info.blocksPerGroup);
    SoundByLast(info, t);
    hide Sound, GroupHeader, DivRoundUp;
  }

  lemma DroppedUncovered(info: Info, aux: Aux, t: Aux)
    requires Reasonable(info, aux) && aux.groups > 0
    requires t == aux.(groups := aux.groups - 1, lenBlocks := aux.lenBlocks - 1)
    requires aux.lenBlocks == FirstBlock(info, aux, aux.groups)
    ensures !Sound(info, t)
  {
    NextFirst(info, aux, aux.groups - 1);
    hide DivRoundUp, GroupHeader, GroupSize;
  }

  lemma Kept(info: Info, aux: Aux)
    requires Reasonable(info, aux)
    ensures aux.groups > 0
    ensures Sound(info, aux) <==>
            GroupHeader(info, aux, aux.groups - 1) <= aux.lenBlocks - FirstBlock(info, aux, aux.groups - 1)
  {
    TrimCases(info, aux);
    SoundByLast(info, aux);
    hide Sound, GroupHeader, DivRoundUp, FirstBlock, GroupSize;
  }

  /** The device is at least one header long. */
  ghost predicate HoldsFirstHeader(info: Info, aux: Aux) {
    GroupHeader(info, aux, 0) <= aux.lenBlocks - aux.firstDataBlock
  }

  /** The sizes for which the trimming works when the first data block is block 1. */
  ghost predicate TrimsWell(info: Info, aux: Aux)
    requires aux.groups > 0
  {
    var last := aux.lenBlocks - FirstBlock(info, aux, aux.groups - 1);
    last != info.blocksPerGroup && last + 1 != GroupHeader(info, aux, aux.groups - 1)
  }

  lemma TrimmedIs(info: Info, aux: Aux)
    requires Reasonable(info, aux)
    ensures aux.groups > 0
    ensures var size := aux.lenBlocks % info.blocksPerGroup;
            Trimmed(info, aux) == if 0 < size < GroupHeader(info, aux, aux.groups - 1)
                                  then aux.(groups := aux.groups - 1, lenBlocks := aux.lenBlocks - size) else aux
  {
    TrimCases(info, aux);
    hide HasSuperBlock, FirstBlock, GroupSize, DivRoundUp;
  }

  lemma FirstOfFirst(info: Info, aux: Aux)
    ensures FirstBlock(info, aux, 0) == aux.firstDataBlock
  {}

  /** The trimming leaves groups that cover the device and hold their headers: always for blocks over 1K, and
      otherwise exactly unless the last group is full or one block short of its header. */
  lemma TrimSound(info: Info, aux: Aux)
    requires Reasonable(info, aux) && HoldsFirstHeader(info, aux)
    ensures aux.groups > 0
    ensures Sound(info, Trimmed(info, aux)) <==> aux.firstDataBlock == 0 || TrimsWell(info, aux)
  {
    TrimCases(info, aux);
    TrimmedIs(info, aux);
    HeaderFits(info, aux, aux.groups - 1);
    FirstOfFirst(info, aux);
    var last, size := aux.lenBlocks - FirstBlock(info, aux, aux.groups - 1), aux.lenBlocks % info.blocksPerGroup;
    NextFirst(info, aux, aux.groups - 1);
    hide GroupHeader, FirstBlock, GroupSize, Sound, Trimmed;
    if 0 < size < GroupHeader(info, aux, aux.groups - 1) {
      if last + aux.firstDataBlock > info.blocksPerGroup {
        DroppedUncovered(info, aux, Trimmed(info, aux));
      } else {
        Dropped(info, aux, Trimmed(info, aux));
      }
    } else {
      Kept(info, aux);
    }
  }

  // ----- the tail of a group -----

  /** overrun in init_bg: the blocks of a full group past the end of the device, truncated to 32 bits. */
  function Overrun(info: Info, aux: Aux, i: nat): u32 {
    Wrap(Wrap(Wrap(FirstBlock(info, aux, i)) + info.blocksPerGroup) - aux.lenBlocks)
  }

  lemma WrapDifference(x: int, y: int)
    requires 0 <= x && 0 <= y
    ensures Wrap(Wrap(x) - y) == Wrap(x - y)
    ensures 0 <= x - y < TWO32 ==> Wrap(x - y) == x - y
    ensures -TWO32 <= x - y < 0 ==> Wrap(x - y) == x - y + TWO32
  {}

  /** The overrun is the missing tail of a short group; for a full group it is nothing, or wraps to more than a
      group holds. */
  lemma OverrunIs(info: Info, aux: Aux, i: nat)
    requires aux.lenBlocks + info.blocksPerGroup < TWO32 && 0 <= GroupSize(info, aux, i)
    ensures var size, overrun := GroupSize(info, aux, i), Overrun(info, aux, i);
            && (size < info.blocksPerGroup ==> overrun == info.blocksPerGroup - size)
            && (size == info.blocksPerGroup ==> overrun == 0 || overrun > info.blocksPerGroup)
  {
    var first := FirstBlock(info, aux, i);
    MulNonNegative(i, info.blocksPerGroup);
    assert Wrap(first) == first;
    WrapDifference(first + info.blocksPerGroup, aux.lenBlocks);
    hide Wrap, FirstBlock;
  }

  // ----- where the header parts lie -----

  datatype Part = SuperBlock | Descriptors | ReservedDescriptors | Bitmaps | InodeTable

  datatype Extent = Extent(part: Part, block: int, len: nat)

  /** The parts of a header as the different functions place them. */
  function HeaderParts(aux: Aux, start: int, super: bool): seq<Extent> {
    var skip := if super then 1 + aux.bgDescBlocks + aux.bgDescReserveBlocks else 0;
    (if super then [Extent(SuperBlock, start, 1), Extent(Descriptors, start + 1, aux.bgDescBlocks),
                    Extent(ReservedDescriptors, start + 1 + aux.bgDescBlocks, aux.bgDescReserveBlocks)] else [])
    + [Extent(Bitmaps, start + skip, 2),
       Extent(InodeTable, start + 2 + skip, aux.inodeTableBlocks)]
  }

  /** Each extent begins where the one before it ends. */
  predicate Tiles(parts: seq<Extent>, from: int, to: int)
    decreases |parts|
  {
    if parts == [] then from == to
    else parts[0].block == from && Tiles(parts[1..], from + parts[0].len, to)
  }

  lemma {:induction false} TilesCons(part: Extent, rest: seq<Extent>, to: int)
    requires Tiles(rest, part.block + part.len, to)
    ensures Tiles([part] + rest, part.block, to)
  {
    assert ([part] + rest)[1..] == rest;
  }

  /** The parts fill the header without gap or overlap. */
  lemma HeaderTiles(aux: Aux, start: int, super: bool)
    ensures Tiles(HeaderParts(aux, start, super), start, start + HeaderBlocks(aux, super))
  {
    var parts, end := HeaderParts(aux, start, super), start + HeaderBlocks(aux, super);
    var n := |parts|;
    TilesCons(parts[n - 1], [], end);
    TilesCons(parts[n - 2], [parts[n - 1]], end);
    if super {
      TilesCons(parts[2], [parts[3], parts[4]], end);
      TilesCons(parts[1], [parts[2], parts[3], parts[4]], end);
      TilesCons(parts[0], [parts[1], parts[2], parts[3], parts[4]], end);
      assert parts == [parts[0]] + [parts[1], parts[2], parts[3], parts[4]];
    } else {
      assert parts == [parts[0]] + [parts[1]];
    }
  }

  /** The part of a header that begins at a block. */
  ghost predicate PartAt(info: Info, aux: Aux, i: nat, part: Extent) {
    part in HeaderParts(aux, FirstBlock(info, aux, i), HasSuperBlock(info.sparse, i))
  }

  datatype Descriptor = Descriptor(blockBitmap: u32, inodeBitmap: u32, inodeTable: u32)

  /** The blocks a descriptor names are those of the header parts. */
  ghost predicate Describes(info: Info, aux: Aux, i: nat, d: Descriptor) {
    PartAt(info, aux, i, Extent(Bitmaps, d.blockBitmap, 2)) && d.inodeBitmap == d.blockBitmap + 1
    && PartAt(info, aux, i, Extent(InodeTable, d.inodeTable, aux.inodeTableBlocks))
  }

  /** The copies queued for group i: none for group 0, which is written with the image's own superblock. */
  ghost function CopiesOf(info: Info, aux: Aux, i: nat): seq<(int, nat)> {
    if HasSuperBlock(info.sparse, i) && i != 0
    then [(FirstBlock(info, aux, i), 1), (FirstBlock(info, aux, i) + 1, aux.bgDescBlocks as nat)] else []
  }

  ghost function Copies(info: Info, aux: Aux, n: nat): seq<(int, nat)> {
    if n == 0 then [] else Copies(info, aux, n - 1) + CopiesOf(info, aux, n - 1)
  }

  lemma HeaderBelow(info: Info, aux: Aux, i: nat)
    requires Sound(info, aux) && i < aux.groups && aux.lenBlocks + info.blocksPerGroup < TWO32
    ensures 0 <= FirstBlock(info, aux, i) && FirstBlock(info, aux, i) + GroupHeader(info, aux, i) <= aux.lenBlocks < TWO32
  {
    MulNonNegative(i, info.blocksPerGroup);
    hide GroupHeader;
  }

  lemma NoCopies(info: Info, aux: Aux)
    ensures Copies(info, aux, 0) == []
  {}

  lemma CopiesNext(info: Info, aux: Aux, i: nat, super: bool)
    requires super == HasSuperBlock(info.sparse, i)
    ensures Copies(info, aux, i + 1)
         == if super && i != 0
            then Copies(info, aux, i)
                 + [(FirstBlock(info, aux, i), 1), (FirstBlock(info, aux, i) + 1, aux.bgDescBlocks as nat)]
            else Copies(info, aux, i)
  {
    hide HasSuperBlock, FirstBlock;
  }

  lemma DescriptorIs(info: Info, aux: Aux, i: nat, super: bool, d: Descriptor)
    requires super == HasSuperBlock(info.sparse, i)
    requires var at := FirstBlock(info, aux, i) + (if super then 1 + aux.bgDescBlocks + aux.bgDescReserveBlocks else 0);
             d.blockBitmap == at && d.inodeBitmap == at + 1 && d.inodeTable == at + 2
    ensures Describes(info, aux, i, d)
  {
    hide HasSuperBlock, FirstBlock;
    var parts := HeaderParts(aux, FirstBlock(info, aux, i), super);
    assert parts[|parts| - 2] == Extent(Bitmaps, d.blockBitmap, 2);
    assert parts[|parts| - 1] == Extent(InodeTable, d.inodeTable, aux.inodeTableBlocks);
  }

  /** The group loop of ext4_fill_in_sb: descriptors, and superblock and descriptor copies. */
  method FillDescriptors(info: Info, aux: Aux) returns (descs: array<Descriptor>, queued: seq<(int, nat)>)
    requires Sound(info, aux) && aux.lenBlocks + info.blocksPerGroup < TWO32
    ensures descs.Length == aux.groups && forall i :: 0 <= i < aux.groups ==> Describes(info, aux, i, descs[i])
    ensures queued == Copies(info, aux, aux.groups)
  {
    descs := new Descriptor[aux.groups](_ => Descriptor(0, 0, 0));
    queued := [];
    NoCopies(info, aux);
    hide *;
    for i := 0 to aux.groups
      invariant forall k :: 0 <= k < i ==> Describes(info, aux, k, descs[k])
      invariant queued == Copies(info, aux, i)
    {
      var super := BgHasSuperBlock(info.sparse, i);
      CopiesNext(info, aux, i, super);
      if super && i != 0 {
        queued := queued + [(FirstBlock(info, aux, i), 1), (FirstBlock(info, aux, i) + 1, aux.bgDescBlocks as nat)];
      }
      descs[i] := Describe(info, aux, i, super);
    }
  }

  /** The descriptor of one group: the bitmaps and the inode table behind the copies. */
  method Describe(info: Info, aux: Aux, i: nat, super: bool) returns (d: Descriptor)
    requires Sound(info, aux) && aux.lenBlocks + info.blocksPerGroup < TWO32
    requires i < aux.groups && super == HasSuperBlock(info.sparse, i)
    ensures Describes(info, aux, i, d)
  {
    hide *;
    HeaderBelow(info, aux, i);
    BitmapsBelow(info, aux, i, super);
    var start, header := FirstBlock(info, aux, i), 0;
    if super {
      header := 1 + aux.bgDescBlocks + aux.bgDescReserveBlocks;
    }
    d := Descriptor(start + header, start + header + 1, start + header + 2);
    DescriptorIs(info, aux, i, super, d);
  }

  lemma BitmapsBelow(info: Info, aux: Aux, i: nat, super: bool)
    requires super == HasSuperBlock(info.sparse, i) && 0 <= FirstBlock(info, aux, i)
    requires FirstBlock(info, aux, i) + GroupHeader(info, aux, i) < TWO32
    ensures FirstBlock(info, aux, i) + (if super then 1 + aux.bgDescBlocks + aux.bgDescReserveBlocks else 0) + 2
            < 0x1_0000_0000
  {
    hide HasSuperBlock;
  }
}
