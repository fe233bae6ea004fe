/** The resize inode: a double-indirect table over the reserved descriptor blocks of every superblock group. */
module Resize {
  import opened Words
  import opened AllocatorSpec
  import opened Regions
  import opened Geometry

  // ----- the reserved blocks -----

  /** The reserved descriptor blocks of the superblock groups in front of group n. */
  ghost function ReservedRuns(info: Info, aux: Aux, n: nat): seq<Run> {
    if n == 0 then []
    else
      var start := FirstBlock(info, aux, n - 1) + 1 + aux.bgDescBlocks;
      if HasSuperBlock(info.sparse, n - 1) && start >= 0
      then ReservedRuns(info, aux, n - 1) + [Run(start, aux.bgDescReserveBlocks, n - 1)]
      else ReservedRuns(info, aux, n - 1)
  }

  /** All regions have the same length. */
  ghost predicate Uniform(runs: seq<Run>, len: nat) {
    forall k :: 0 <= k < |runs| ==> runs[k].len == len
  }

  /** In regions of one length a block is found by division. */
  lemma {:induction false} LookupUniform(runs: seq<Run>, k: nat, len: nat, j: nat, r: nat)
    requires Uniform(runs, len) && k + j < |runs| && r < len
    ensures Lookup(runs, k, j * len + r) == runs[k + j].block + r
    decreases j
  {
    MulNonNegative(j, len);
    if j > 0 {
      assert j * len == (j - 1) * len + len;
      MulNonNegative(j - 1, len);
      LookupUniform(runs, k + 1, len, j - 1, r);
    }
  }

  // ----- the rotation -----

  /** r in inode_attach_resize: the difference is taken modulo 2^32 before the remainder. */
  function Rotated(i: u32, desc: u32, reserve: u32): u32
    requires reserve > 0
  {
    Wrap(i - desc) % reserve
  }

  ghost predicate Injective(desc: u32, reserve: u32)
    requires reserve > 0
  {
    forall i: u32, j: u32 :: i < j < reserve ==> Rotated(i, desc, reserve) != Rotated(j, desc, reserve)
  }

  lemma {:induction false} RemaindersDiffer(x: nat, y: nat, m: nat)
    requires m > 0 && x < y < x + m
    ensures x % m != y % m
  {
    if x % m == y % m {
      var q := y / m - x / m;
      assert x == m * (x / m) + x % m && y == m * (y / m) + y % m;
      assert y - x == m * q by {
        assert m * q == m * (y / m) - m * (x / m);
      }
      MulGap(0, q, m);
      MulGap(q, 1, m);
    }
  }

  lemma {:induction false} AddMultiple(x: nat, q: nat, m: nat)
    requires m > 0
    ensures 0 <= q * m && (x + q * m) % m == x % m
  {
    MulNonNegative(q, m);
    assert x == m * (x / m) + x % m;
    assert m * (x / m + q) == m * (x / m) + q * m;
    ModUnique(x + q * m, m, x / m + q, x % m);
  }

  /** Where nothing wraps unevenly, the remainder is that of i plus a constant. */
  lemma {:induction false} RotatedIs(i: u32, desc: u32, reserve: u32)
    requires 0 < reserve && i < reserve
    requires desc == 0 || desc >= reserve || TWO32 % reserve == 0
    ensures Rotated(i, desc, reserve) == (if desc == 0 then i as nat else (i + (TWO32 - desc)) as nat) % reserve
  {
    if desc > 0 && desc < reserve && i >= desc {
      assert TWO32 == reserve * (TWO32 / reserve);
      AddMultiple(i - desc, TWO32 / reserve, reserve);
      assert TWO32 / reserve * reserve == TWO32;
    }
    assert desc > 0 && i < desc ==> Wrap(i - desc) == i + (TWO32 - desc);
    assert i >= desc ==> Wrap(i - desc) == i - desc;
  }

  lemma {:induction false} RotationInjective(desc: u32, reserve: u32)
    requires 0 < reserve && (desc == 0 || desc >= reserve || TWO32 % reserve == 0)
    ensures Injective(desc, reserve)
  {
    var shift: nat := if desc == 0 then 0 else TWO32 - desc;
    forall i: u32, j: u32 | i < j < reserve
      ensures Rotated(i, desc, reserve) != Rotated(j, desc, reserve)
    {
      RotatedIs(i, desc, reserve);
      RotatedIs(j, desc, reserve);
      RemaindersDiffer(i + shift, j + shift, reserve);
      hide Rotated;
    }
  }

  /** Otherwise two slots get the same block. */
  lemma {:induction false} RotationCollides(desc: u32, reserve: u32)
    requires 0 < desc < reserve && TWO32 % reserve != 0
    ensures !Injective(desc, reserve)
  {
    var i, s := Collision(desc, reserve);
    var j: u32 := s + desc;
    assert Wrap(j - desc) == s && Rotated(j, desc, reserve) == s by {
      ModUnique(s, reserve, 0, s);
    }
    assert i < j < reserve && Rotated(i, desc, reserve) == Rotated(j, desc, reserve);
  }

  lemma {:induction false} NextMultiple(base: nat, m: nat, i: nat)
    requires m > 0 && base % m + i == m
    ensures (base + i) % m == 0
  {
    var q := base / m;
    assert base == m * q + base % m;
    assert m * (q + 1) == m * q + m;
    ModUnique(base + i, m, q + 1, 0);
  }

  lemma {:induction false} WrapsTo(i: u32, desc: u32)
    requires i < desc
    ensures Wrap(i - desc) == i + (TWO32 - desc)
  {}

  /** A wrapped slot whose remainder an unwrapped slot has too. */
  lemma {:induction false} Collision(desc: u32, reserve: u32) returns (i: u32, s: u32)
    requires 0 < desc < reserve && TWO32 % reserve != 0
    ensures i < desc && s < reserve - desc && Rotated(i, desc, reserve) == s
  {
    var base: nat := TWO32 - desc;
    var start := base % reserve;
    if start < reserve - desc {
      i, s := 0, start;
      WrapsTo(0, desc);
    } else {
      if start == reserve - desc {
        NextMultiple(base, reserve, desc);
      }
      i, s := reserve - start, 0;
      NextMultiple(base, reserve, i);
      WrapsTo(i, desc);
    }
  }

  /** The table is a permutation of the reserved blocks exactly under this condition. */
  lemma {:induction false} RotationPermutes(desc: u32, reserve: u32)
    requires reserve > 0
    ensures Injective(desc, reserve) <==> desc == 0 || desc >= reserve || TWO32 % reserve == 0
  {
    if desc == 0 || desc >= reserve || TWO32 % reserve == 0 {
      RotationInjective(desc, reserve);
    } else {
      RotationCollides(desc, reserve);
    }
    hide Injective;
  }

  lemma {:induction false} SameModTwice(x: nat, y: nat, m: nat)
    requires m > 0
    ensures (x % m + y) % m == (x + y) % m
  {
    AddMultiple(x % m + y, x / m, m);
    assert x == m * (x / m) + x % m;
  }

  /** Taking the shift off and adding it again. */
  lemma {:induction false} ShiftBack(r: nat, shift: nat, m: nat)
    requires r < m
    ensures ((r + (m - shift % m)) % m + shift) % m == r
  {
    var back := m - shift % m;
    SameModTwice(r + back, shift, m);
    AddMultiple(r, shift / m + 1, m);
    assert shift == m * (shift / m) + shift % m;
    assert (shift / m + 1) * m == m * (shift / m) + m;
    ModUnique(r, m, 0, r);
  }

  /** Every reserved block has a slot. */
  lemma {:induction false} RotationHits(desc: u32, reserve: u32, r: nat) returns (i: u32)
    requires r < reserve && (desc == 0 || desc >= reserve || TWO32 % reserve == 0)
    ensures i < reserve && Rotated(i, desc, reserve) == r
  {
    var shift: nat := if desc == 0 then 0 else TWO32 - desc;
    i := (r + (reserve - shift % reserve)) % reserve;
    hide Rotated;
    RotatedIs(i, desc, reserve);
    ShiftBack(r, shift, reserve);
  }

  lemma {:induction false} RotatedBelow(i: u32, desc: u32, reserve: u32)
    requires reserve > 0
    ensures Rotated(i, desc, reserve) < reserve
  {}

  // ----- inode_attach_resize -----

  /** The slot of backup group j in the row of reserved block r. */
  function RowSlot(r: nat, j: nat, ind: nat): int { r * ind + j - 1 }

  lemma {:induction false} RowSlotsApart(r: nat, j: nat, s: nat, k: nat, ind: nat)
    requires 1 <= j <= ind && 1 <= k <= ind
    ensures RowSlot(r, j, ind) == RowSlot(s, k, ind) <==> r == s && j == k
  {
    MulGap(r, s, ind);
    MulGap(s, r, ind);
  }

  lemma {:induction false} RowSlotInside(r: nat, j: nat, ind: nat, rows: nat)
    requires 1 <= j <= ind && r < rows
    ensures 0 <= RowSlot(r, j, ind) < rows * ind
  {
    MulNonNegative(r, ind);
    MulGap(r, rows, ind);
  }

  lemma {:induction false} UniformTotal(runs: seq<Run>, len: nat)
    requires Uniform(runs, len)
    ensures Total(runs) == |runs| * len
    decreases |runs|
  {
    if runs != [] {
      assert Uniform(runs[1..], len);
      UniformTotal(runs[1..], len);
      assert |runs| * len == (|runs| - 1) * len + len;
    }
  }

  /** The rows that hold what they should: for the reserved blocks of the slots in front of i, and of slot i for the
      backup groups in front of j. */
  ghost predicate RowsDone(rows: seq<u32>, runs: seq<Run>, desc: u32, reserve: u32, ind: nat, i: nat, j: nat)
    requires reserve > 0
  {
    |rows| == reserve * ind
    && forall k: u32, m: nat :: (k < i || (k == i && m < j)) && k < reserve && 1 <= m < |runs| && |runs| <= ind + 1 ==>
         (RotatedBelow(k, desc, reserve);
          RowSlotInside(Rotated(k, desc, reserve), m, ind, reserve);
          rows[RowSlot(Rotated(k, desc, reserve), m, ind)] == runs[m].block + Rotated(k, desc, reserve))
  }

  lemma {:induction false} RowsStep(rows: seq<u32>, rows': seq<u32>, runs: seq<Run>, desc: u32, reserve: u32, ind: nat,
                                   i: u32, j: nat, block: u32)
    requires reserve > 0 && RowsDone(rows, runs, desc, reserve, ind, i, j)
    requires i < reserve && 1 <= j < |runs| <= ind + 1 && block == runs[j].block + Rotated(i, desc, reserve)
    requires 0 <= RowSlot(Rotated(i, desc, reserve), j, ind) < |rows|
    requires rows' == rows[RowSlot(Rotated(i, desc, reserve), j, ind) := block]
    ensures RowsDone(rows', runs, desc, reserve, ind, i, j + 1)
  {
    hide RowSlot, Rotated;
    forall k: u32, m: nat | (k < i || (k == i && m < j + 1)) && k < reserve && 1 <= m < |runs|
      ensures 0 <= RowSlot(Rotated(k, desc, reserve), m, ind) < |rows|
      ensures rows'[RowSlot(Rotated(k, desc, reserve), m, ind)] == runs[m].block + Rotated(k, desc, reserve)
    {
      RotatedBelow(k, desc, reserve);
      RowSlotInside(Rotated(k, desc, reserve), m, ind, reserve);
      RowSlotsApart(Rotated(k, desc, reserve), m, Rotated(i, desc, reserve), j, ind);
    }
  }

  lemma {:induction false} RowEnds(rows: seq<u32>, runs: seq<Run>, desc: u32, reserve: u32, ind: nat, i: u32)
    requires reserve > 0 && RowsDone(rows, runs, desc, reserve, ind, i, |runs|)
    ensures RowsDone(rows, runs, desc, reserve, ind, i + 1, 1)
  {
    hide RowSlot, Rotated;
  }

  datatype ResizeOutcome = Attached | Crash | Overflow

  /** The reserved regions as inode_attach_resize needs them. */
  ghost predicate Reserved(list: RegionList, runs: seq<Run>, reserve: u32)
    reads list, list.nodes
  {
    && list.Chained() && list.ReadsAt(0) && list.partialIter == 0 && RunsOf(list.nodes) == runs
    && NoWrap(runs) && Uniform(runs, reserve) && |runs| * reserve < TWO32
  }

  /** get_block(alloc, j * reserve + r): block r of region j. */
  method ReservedBlock(list: RegionList, j: nat, r: u32, reserve: u32, ghost runs: seq<Run>) returns (block: u32)
    requires Reserved(list, runs, reserve) && j < |runs| && r < reserve
    ensures block as nat == runs[j].block + r
  {
    hide *;
    OpenReserved(list, runs, reserve);
    BlockIndex(j, r, reserve, |runs|);
    LookupUniform(runs, 0, reserve, j, r);
    block := list.GetBlock(j * reserve + r, 0);
  }

  lemma OpenReserved(list: RegionList, runs: seq<Run>, reserve: u32)
    requires Reserved(list, runs, reserve)
    ensures list.Chained() && list.ReadsAt(0) && list.partialIter == 0 && RunsOf(list.nodes) == runs
    ensures NoWrap(runs) && Uniform(runs, reserve) && |runs| * reserve < 0x1_0000_0000
  {}

  lemma {:induction false} BlockIndex(j: nat, r: u32, reserve: u32, n: nat)
    requires j < n && r < reserve && n * reserve < 0x1_0000_0000
    ensures 0 <= j * reserve + r < 0x1_0000_0000 && (j * reserve + r + 0) % 0x1_0000_0000 == j * reserve + r
  {
    MulGap(j, n, reserve);
    MulNonNegative(j, reserve);
  }

  /** One entry of the row of slot i. */
  method StoreRow(list: RegionList, rows: array<u32>, ind: u32, desc: u32, reserve: u32, i: u32, j: nat,
                  ghost runs: seq<Run>)
    requires Reserved(list, runs, reserve) && i < reserve && 1 <= j < |runs| <= ind + 1
    requires RowsDone(rows[..], runs, desc, reserve, ind, i, j)
    modifies rows
    ensures RowsDone(rows[..], runs, desc, reserve, ind, i, j + 1)
  {
    ghost var before := rows[..];
    assert |before| == reserve * ind;
    RotatedBelow(i, desc, reserve);
    RowSlotInside(Rotated(i, desc, reserve), j, ind, reserve);
    hide RowsDone, Rotated, RowSlot, Reserved;
    var r := Rotated(i, desc, reserve);
    var block := ReservedBlock(list, j, r, reserve, runs);
    rows[RowSlot(r, j, ind)] := block;
    RowsStep(before, rows[..], runs, desc, reserve, ind, i, j, block);
  }

  lemma NoRows(rows: seq<u32>, runs: seq<Run>, desc: u32, reserve: u32, ind: nat)
    requires reserve > 0 && |rows| == reserve * ind
    ensures RowsDone(rows, runs, desc, reserve, ind, 0, 1)
  {
    hide Rotated, RowSlot;
  }

  /** The double-indirect block: slot i names the reserved block of group 0 with the rotated number. */
  ghost predicate TableDone(table: seq<u32>, runs: seq<Run>, desc: u32, reserve: u32, i: nat)
    requires reserve > 0
  {
    runs != [] && i <= |table| && forall k: u32 :: k < i ==> table[k] as nat == runs[0].block + Rotated(k, desc, reserve)
  }

  /** One turn of the outer loop: the slot, and the row it leads to. */
  method StoreSlot(list: RegionList, table: array<u32>, rows: array<u32>, ind: u32, desc: u32, reserve: u32, i: u32,
                   superblocks: nat, ghost runs: seq<Run>)
    requires Reserved(list, runs, reserve) && i < reserve <= table.Length && superblocks == |runs| <= ind + 1
    requires TableDone(table[..], runs, desc, reserve, i) && RowsDone(rows[..], runs, desc, reserve, ind, i, 1)
    requires table != rows
    modifies table, rows
    ensures TableDone(table[..], runs, desc, reserve, i + 1) && RowsDone(rows[..], runs, desc, reserve, ind, i + 1, 1)
  {
    assert 0 < |runs|;
    RotatedBelow(i, desc, reserve);
    StoreFirst(list, table, desc, reserve, i, runs);
    hide TableDone, RowsDone, Rotated, Reserved;
    for j := 1 to superblocks
      invariant RowsDone(rows[..], runs, desc, reserve, ind, i, j) && TableDone(table[..], runs, desc, reserve, i + 1)
    {
      StoreRow(list, rows, ind, desc, reserve, i, j, runs);
    }
    RowEnds(rows[..], runs, desc, reserve, ind, i);
  }

  method StoreFirst(list: RegionList, table: array<u32>, desc: u32, reserve: u32, i: u32, ghost runs: seq<Run>)
    requires Reserved(list, runs, reserve) && i < reserve <= table.Length && TableDone(table[..], runs, desc, reserve, i)
    modifies table
    ensures TableDone(table[..], runs, desc, reserve, i + 1)
  {
    RotatedBelow(i, desc, reserve);
    hide Reserved, Rotated;
    table[i] := ReservedBlock(list, 0, Rotated(i, desc, reserve), reserve, runs);
  }

  /** The block that slot k names is one of those at rowsAt and behind it, where the rows lie, and its row holds the reserved
      block of the same number in superblock group m. */
  ghost predicate RowFound(table: seq<u32>, rows: seq<u32>, rowsAt: nat, runs: seq<Run>, reserve: u32, ind: nat, k: nat, m: nat)
    requires 1 <= m < |runs|
  {
    && k < |table| && 0 <= table[k] - rowsAt < reserve && 0 <= RowSlot(table[k] - rowsAt, m, ind) < |rows|
    && rows[RowSlot(table[k] - rowsAt, m, ind)] == runs[m].block + (table[k] - rowsAt)
  }

  ghost predicate RowsFound(table: seq<u32>, rows: seq<u32>, rowsAt: nat, runs: seq<Run>, reserve: u32, ind: nat) {
    forall k: nat, m: nat :: k < reserve && 1 <= m < |runs| ==> RowFound(table, rows, rowsAt, runs, reserve, ind, k, m)
  }

  lemma {:induction false} RowBehindSlot(table: seq<u32>, rows: seq<u32>, runs: seq<Run>, desc: u32, reserve: u32, ind: nat,
                                         k: u32, m: nat)
    requires reserve > 0 && |runs| <= ind + 1 && k < reserve && 1 <= m < |runs|
    requires TableDone(table, runs, desc, reserve, reserve) && RowsDone(rows, runs, desc, reserve, ind, reserve, 1)
    ensures RowFound(table, rows, runs[0].block, runs, reserve, ind, k, m)
  {
    RotatedBelow(k, desc, reserve);
    RowSlotInside(Rotated(k, desc, reserve), m, ind, reserve);
    hide RowSlot, Rotated;
    assert table[k] - runs[0].block == Rotated(k, desc, reserve);
  }

  /** inode_attach_resize: the two tables behind the resize inode, and the block the rows are queued at. */
  method AttachResize(list: RegionList, ind: u32, desc: u32, reserve: u32, ghost runs: seq<Run>)
    returns (outcome: ResizeOutcome, table: array<u32>, rows: array<u32>, rowsAt: u32)
    requires Reserved(list, runs, reserve) && runs != [] && reserve <= ind
    ensures outcome == if reserve == 0 then Crash else if |runs| > ind + 1 then Overflow else Attached
    ensures outcome == Attached ==>
              && table.Length as int == ind as int && rows.Length == reserve * ind
              && TableDone(table[..], runs, desc, reserve, reserve)
              && RowsDone(rows[..], runs, desc, reserve, ind, reserve, 1)
              && rowsAt as nat == runs[0].block && RowsFound(table[..], rows[..], rowsAt, runs, reserve, ind)
  {
    table, rows, rowsAt := new u32[0], new u32[0], 0;
    if reserve == 0 {
      return Crash, table, rows, rowsAt;
    }
    var blockLen := ListLength(list, reserve, runs);
    var superblocks := blockLen / reserve;
    ModUnique(blockLen, reserve, |runs|, 0);
    if superblocks > ind + 1 {
      return Overflow, table, rows, rowsAt;
    }
    MulNonNegative(reserve, ind);
    table, rows := new u32[ind](_ => 0), new u32[reserve * ind](_ => 0);
    NoRows(rows[..], runs, desc, reserve, ind);
    hide TableDone, RowsDone, Reserved, RowFound;
    rowsAt := ReservedBlock(list, 0, 0, reserve, runs);
    NoSlots(table[..], runs, desc, reserve);
    for i := 0 to reserve
      invariant TableDone(table[..], runs, desc, reserve, i) && RowsDone(rows[..], runs, desc, reserve, ind, i, 1)
    {
      StoreSlot(list, table, rows, ind, desc, reserve, i, superblocks, runs);
    }
    forall k: nat, m: nat | k < reserve && 1 <= m < |runs|
      ensures RowFound(table[..], rows[..], rowsAt, runs, reserve, ind, k, m)
    {
      RowBehindSlot(table[..], rows[..], runs, desc, reserve, ind, k, m);
    }
    outcome := Attached;
  }

  lemma NoSlots(table: seq<u32>, runs: seq<Run>, desc: u32, reserve: u32)
    requires runs != [] && reserve > 0
    ensures TableDone(table, runs, desc, reserve, 0)
  {}

  method ListLength(list: RegionList, reserve: u32, ghost runs: seq<Run>) returns (len: nat)
    requires Reserved(list, runs, reserve)
    ensures len == |runs| * reserve && len == reserve * |runs|
  {
    hide *;
    OpenReserved(list, runs, reserve);
    UniformTotal(runs, reserve);
    MulCommutes(|runs|, reserve);
    len := list.Length();
  }

  // ----- the regions of the resize inode -----

  lemma {:induction false} ReservedBelow(info: Info, aux: Aux, i: nat)
    requires Sound(info, aux) && i < aux.groups && aux.lenBlocks + info.blocksPerGroup < TWO32
    requires HasSuperBlock(info.sparse, i)
    ensures 0 <= FirstBlock(info, aux, i) + 1 + aux.bgDescBlocks < 0x1_0000_0000
    ensures FirstBlock(info, aux, i) + 1 + aux.bgDescBlocks + aux.bgDescReserveBlocks < 0x1_0000_0000
    ensures PartAt(info, aux, i, Extent(ReservedDescriptors, FirstBlock(info, aux, i) + 1 + aux.bgDescBlocks,
                                        aux.bgDescReserveBlocks))
  {
    HeaderBelow(info, aux, i);
    hide HasSuperBlock, FirstBlock, Sound;
    var parts := HeaderParts(aux, FirstBlock(info, aux, i), true);
    assert parts[2] in parts;
  }

  lemma {:induction false} ReservedMore(info: Info, aux: Aux, n: nat)
    requires 0 <= FirstBlock(info, aux, n) + 1 + aux.bgDescBlocks || !HasSuperBlock(info.sparse, n)
    ensures ReservedRuns(info, aux, n + 1)
         == if HasSuperBlock(info.sparse, n)
            then ReservedRuns(info, aux, n)
                 + [Run(FirstBlock(info, aux, n) + 1 + aux.bgDescBlocks, aux.bgDescReserveBlocks, n)]
            else ReservedRuns(info, aux, n)
  {
    hide HasSuperBlock, FirstBlock;
  }

  /** A list being appended to, and read from its start. */
  ghost predicate Appending(list: RegionList, runs: seq<Run>)
    reads list, list.nodes
  {
    list.Chained() && list.last == NodeAt(list.nodes, |list.nodes| - 1) && RunsOf(list.nodes) == runs
    && list.ReadsAt(0) && list.partialIter == 0
  }

  /** append_region */
  method AppendRegion(list: RegionList, block: u32, len: u32, bg: nat, ghost runs: seq<Run>)
    requires Appending(list, runs)
    modifies list, list.nodes
    ensures Appending(list, runs + [Run(block, len, bg)])
    ensures forall k :: 0 <= k < |list.nodes| ==> fresh(list.nodes[k]) || list.nodes[k] in old(list.nodes)
  {
    hide *;
    OpenAppending(list, runs);
    var reg := new Region(block, len, bg);
    ViewOf(reg);
    FirstAppended(list.nodes, reg);
    list.Append(reg);
    StillAppending(list, runs + [Run(block, len, bg)]);
  }

  lemma OpenAppending(list: RegionList, runs: seq<Run>)
    requires Appending(list, runs)
    ensures list.Chained() && list.last == NodeAt(list.nodes, |list.nodes| - 1) && RunsOf(list.nodes) == runs
    ensures list.partialIter == 0 && list.iter == NodeAt(list.nodes, 0) && (list.first == null <==> list.nodes == [])
  {}

  lemma FirstAppended(nodes: seq<Region>, reg: Region)
    ensures NodeAt(nodes + [reg], 0) == if nodes == [] then reg else NodeAt(nodes, 0)
  {}

  lemma ViewOf(reg: Region)
    ensures reg.View() == Run(reg.block, reg.len, reg.bg)
  {}

  lemma StillAppending(list: RegionList, runs: seq<Run>)
    requires list.Chained() && list.last == NodeAt(list.nodes, |list.nodes| - 1) && RunsOf(list.nodes) == runs
    requires list.partialIter == 0 && list.iter == NodeAt(list.nodes, 0)
    ensures Appending(list, runs)
  {}

  /** The loop of ext4_create_resize_inode. */
  method ReserveRegions(info: Info, aux: Aux) returns (alloc: BlockAllocation)
    requires Sound(info, aux) && aux.lenBlocks + info.blocksPerGroup < TWO32
    ensures Appending(alloc.list, ReservedRuns(info, aux, aux.groups))
  {
    alloc := new BlockAllocation();
    hide Appending, HasSuperBlock, FirstBlock, Sound, ReservedRuns;
    NothingAppended(alloc.list, info, aux);
    for i := 0 to aux.groups
      invariant Appending(alloc.list, ReservedRuns(info, aux, i))
      invariant fresh(alloc.list) && forall k :: 0 <= k < |alloc.list.nodes| ==> fresh(alloc.list.nodes[k])
    {
      var super := BgHasSuperBlock(info.sparse, i);
      if super {
        ReservedBelow(info, aux, i);
        var start := FirstBlock(info, aux, i) + 1 + aux.bgDescBlocks;
        AppendRegion(alloc.list, start, aux.bgDescReserveBlocks, i, ReservedRuns(info, aux, i));
      }
      ReservedMore(info, aux, i);
    }
  }

  lemma NothingAppended(list: RegionList, info: Info, aux: Aux)
    requires list.first == list.last == list.iter == null && list.nodes == [] && list.partialIter == 0
    ensures Appending(list, ReservedRuns(info, aux, 0))
  {}

  lemma MulCommutes(a: nat, b: nat)
    ensures a * b == b * a
  {}

  // ----- ext4_create_resize_inode -----

  lemma {:induction false} ReservedUniform(info: Info, aux: Aux, n: nat)
    ensures Uniform(ReservedRuns(info, aux, n), aux.bgDescReserveBlocks) && |ReservedRuns(info, aux, n)| <= n
  {
    if n > 0 {
      ReservedUniform(info, aux, n - 1);
    }
    hide HasSuperBlock, FirstBlock;
  }

  lemma {:induction false} ReservedNoWrap(info: Info, aux: Aux, n: nat)
    requires Sound(info, aux) && n <= aux.groups && aux.lenBlocks + info.blocksPerGroup < TWO32
    ensures NoWrap(ReservedRuns(info, aux, n))
  {
    if n > 0 {
      ReservedNoWrap(info, aux, n - 1);
      if HasSuperBlock(info.sparse, n - 1) {
        ReservedBelow(info, aux, n - 1);
      }
    }
    hide HasSuperBlock, FirstBlock, Sound, PartAt;
  }

  lemma {:induction false} ReservedFirst(info: Info, aux: Aux, n: nat)
    requires n > 0 && FirstBlock(info, aux, 0) == aux.firstDataBlock && HasSuperBlock(info.sparse, 0)
    ensures var runs := ReservedRuns(info, aux, n);
            runs != [] && runs[0] == Run(aux.firstDataBlock + 1 + aux.bgDescBlocks, aux.bgDescReserveBlocks, 0)
  {
    hide HasSuperBlock, FirstBlock;
    if n > 1 {
      ReservedFirst(info, aux, n - 1);
    } else {
      assert ReservedRuns(info, aux, 0) == [];
    }
  }

  /** The number of reserved blocks is below 2^32. */
  lemma {:induction false} ReservedCount(info: Info, aux: Aux)
    requires Sound(info, aux) && aux.groups > 0 && aux.lenBlocks + info.blocksPerGroup < TWO32
    requires HasSuperBlock(info.sparse, 0) && FirstBlock(info, aux, 0) == aux.firstDataBlock
    ensures |ReservedRuns(info, aux, aux.groups)| * aux.bgDescReserveBlocks < 0x1_0000_0000
  {
    var n, r := |ReservedRuns(info, aux, aux.groups)|, aux.bgDescReserveBlocks;
    ReservedUniform(info, aux, aux.groups);
    assert GroupHeader(info, aux, 0) <= GroupSize(info, aux, 0);
    assert r <= info.blocksPerGroup;
    assert GroupHeader(info, aux, aux.groups - 1) <= GroupSize(info, aux, aux.groups - 1);
    assert (aux.groups - 1) * info.blocksPerGroup <= aux.lenBlocks;
    hide ReservedRuns, HasSuperBlock, Sound, Uniform, GroupHeader, GroupSize;
    CountBelow(n, r, aux.groups, info.blocksPerGroup, aux.lenBlocks);
  }

  lemma CountBelow(n: nat, r: nat, g: nat, d: nat, len: nat)
    requires n <= g && r <= d && g > 0 && (g - 1) * d <= len && len + d < 0x1_0000_0000
    ensures n * r < 0x1_0000_0000
  {
    MulGrows(n, g, r);
    MulCommutes(g, r);
    MulGrows(r, d, g);
    MulCommutes(d, g);
    assert g * d == (g - 1) * d + d;
  }

  lemma MulGrows(a: nat, b: nat, c: nat)
    requires a <= b
    ensures a * c <= b * c
  {
    if a < b {
      MulGap(a, b, c);
    }
  }

  /** The list ext4_create_resize_inode has built is what inode_attach_resize needs. */
  lemma {:induction false} ReservedList(list: RegionList, info: Info, aux: Aux)
    requires Sound(info, aux) && aux.groups > 0 && aux.lenBlocks + info.blocksPerGroup < TWO32
    requires HasSuperBlock(info.sparse, 0) && FirstBlock(info, aux, 0) == aux.firstDataBlock
    requires Appending(list, ReservedRuns(info, aux, aux.groups))
    ensures Reserved(list, ReservedRuns(info, aux, aux.groups), aux.bgDescReserveBlocks)
    ensures ReservedRuns(info, aux, aux.groups) != []
  {
    ReservedUniform(info, aux, aux.groups);
    ReservedNoWrap(info, aux, aux.groups);
    ReservedFirst(info, aux, aux.groups);
    ReservedCount(info, aux);
    hide ReservedRuns, Sound, HasSuperBlock, FirstBlock, Uniform, NoWrap, Linked, RunsOf;
  }
}
