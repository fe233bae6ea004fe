/** The items queued for the headers of the groups: bitmaps, copies of the superblock and the descriptors, inode tables
    and the areas of the reserved descriptor blocks, which hold the rows of the resize inode. */
module HeaderQueue {
  import opened Words
  import opened Geometry
  import opened AllocatorSpec
  import opened AllocatorRuns
  import opened BlockGroups
  import opened Allocators
  import opened AllocatorSafety
  import opened WriteQueue
  import opened Ext4Image
  import opened QueueAreas

  /** One part of one group's header. */
  datatype Key = Key(group: nat, part: Part)

  /** Where a part begins in a header, and its length. */
  function Skip(aux: Aux, super: bool): nat {
    if super then 1 + aux.bgDescBlocks + aux.bgDescReserveBlocks else 0
  }

  function OffsetOf(aux: Aux, super: bool, part: Part): nat {
    match part
    case SuperBlock => 0
    case Descriptors => 1
    case ReservedDescriptors => 1 + aux.bgDescBlocks
    case Bitmaps => Skip(aux, super)
    case InodeTable => Skip(aux, super) + 2
  }

  function LengthOf(aux: Aux, part: Part): nat {
    match part
    case SuperBlock => 1
    case Descriptors => aux.bgDescBlocks
    case ReservedDescriptors => aux.bgDescReserveBlocks
    case Bitmaps => 2
    case InodeTable => aux.inodeTableBlocks
  }

  ghost function AreaOf(info: Info, aux: Aux, k: Key): Run {
    MulNonNegative(k.group, info.blocksPerGroup);
    Run(FirstBlock(info, aux, k.group) + OffsetOf(aux, HasSuperBlock(info.sparse, k.group), k.part),
        LengthOf(aux, k.part), k.group)
  }

  /** The part exists, and is not the superblock or the descriptors of group 0, which are not queued. */
  ghost predicate Queueable(info: Info, aux: Aux, k: Key) {
    && k.group < aux.groups
    && (k.part in {SuperBlock, Descriptors} ==> k.group > 0 && HasSuperBlock(info.sparse, k.group))
    && (k.part == ReservedDescriptors ==> HasSuperBlock(info.sparse, k.group))
  }

  /** The areas are the parts of the headers as the layout has them. */
  lemma AreaIsPart(info: Info, aux: Aux, k: Key)
    requires Queueable(info, aux, k)
    ensures Extent(k.part, AreaOf(info, aux, k).block, AreaOf(info, aux, k).len)
         in HeaderParts(aux, FirstBlock(info, aux, k.group), HasSuperBlock(info.sparse, k.group))
  {
    var super, start := HasSuperBlock(info.sparse, k.group), FirstBlock(info, aux, k.group);
    var parts := HeaderParts(aux, start, super);
    hide HasSuperBlock, FirstBlock;
    var e := Extent(k.part, AreaOf(info, aux, k).block, AreaOf(info, aux, k).len);
    match k.part
    case SuperBlock => assert parts[0] == e;
    case Descriptors => assert parts[1] == e;
    case ReservedDescriptors => assert parts[2] == e;
    case Bitmaps => assert parts[|parts| - 2] == e;
    case InodeTable => assert parts[|parts| - 1] == e;
  }

  lemma AreaInHeader(info: Info, aux: Aux, k: Key)
    requires Queueable(info, aux, k)
    ensures var a := AreaOf(info, aux, k);
            a.bg == k.group && FirstBlock(info, aux, k.group) <= a.block
            && a.block + a.len <= FirstBlock(info, aux, k.group) + GroupHeader(info, aux, k.group)
  {
    hide HasSuperBlock, FirstBlock;
  }

  lemma GroupsApart(info: Info, aux: Aux, i: nat, j: nat)
    requires Buildable(info, aux) && i < j < aux.groups
    ensures FirstBlock(info, aux, i) + GroupHeader(info, aux, i) <= FirstBlock(info, aux, j)
  {
    Sizes(info, aux, i);
    FirstsApart(info, aux, i, j);
    hide Buildable, FirstBlock, GroupHeader, GroupSize;
  }

  /** Different parts share no block. */
  lemma PartsApart(info: Info, aux: Aux, k: Key, l: Key)
    requires Buildable(info, aux) && Queueable(info, aux, k) && Queueable(info, aux, l) && k != l
    ensures Disjoint(AreaOf(info, aux, k), AreaOf(info, aux, l))
  {
    AreaInHeader(info, aux, k);
    AreaInHeader(info, aux, l);
    if k.group < l.group {
      GroupsApart(info, aux, k.group, l.group);
    } else if l.group < k.group {
      GroupsApart(info, aux, l.group, k.group);
    }
    hide HasSuperBlock, FirstBlock, Buildable, GroupHeader;
  }

  /** No part meets a live region. */
  lemma PartVersusLive(info: Info, aux: Aux, k: Key, gs: seq<Group>, live: seq<Run>, j: nat)
    requires Buildable(info, aux) && Queueable(info, aux, k) && Safe(gs, live, Shapes(info, aux)) && j < |live|
    ensures Disjoint(AreaOf(info, aux, k), live[j])
  {
    var shapes, r, a := Shapes(info, aux), live[j], AreaOf(info, aux, k);
    assert AllocatorRuns.Inside(r, gs, shapes) && Fits(gs[r.bg], shapes[r.bg]);
    AreaInHeader(info, aux, k);
    ShapeBounds(info, aux, r.bg);
    ShapeBounds(info, aux, k.group);
    if k.group < r.bg {
      GroupsApart(info, aux, k.group, r.bg);
    } else if r.bg < k.group {
      assert shapes[r.bg].first + shapes[r.bg].end <= shapes[k.group].first;
    }
    hide AreaOf, FirstBlock, GroupHeader, GroupSize, Buildable, Queueable, InitialGroup;
  }

  // ----- the state of the image under construction -----

  ghost function AreasOf(info: Info, aux: Aux, keys: seq<Key>): (areas: seq<Run>)
    ensures |areas| == |keys|
  {
    seq(|keys|, i requires 0 <= i < |keys| => AreaOf(info, aux, keys[i]))
  }

  ghost predicate KeysOk(info: Info, aux: Aux, keys: seq<Key>) {
    forall k :: k in keys ==> Queueable(info, aux, k)
  }

  /** The queued parts of headers and the live regions hold all items, one part or region for each. */
  ghost predicate Laid(info: Info, aux: Aux, keys: seq<Key>, gs: seq<Group>, live: seq<Run>, items: seq<Item>)
    requires Buildable(info, aux)
  {
    && info.blockSize > 0 && KeysOk(info, aux, keys) && Safe(gs, live, Shapes(info, aux))
    && Settled(items, AreasOf(info, aux, keys) + live, info.blockSize)
  }

  lemma FreshLaid(info: Info, aux: Aux)
    requires Buildable(info, aux) && info.blockSize > 0
    ensures Laid(info, aux, [], InitialGroups(info, aux), [], [])
  {
    FreshSafe(info, aux);
    NothingSettled(AreasOf(info, aux, []) + [], info.blockSize);
    hide Safe, Settled, Buildable;
  }

  lemma NewPartApart(info: Info, aux: Aux, keys: seq<Key>, gs: seq<Group>, live: seq<Run>, k: Key)
    requires Buildable(info, aux) && KeysOk(info, aux, keys) && Safe(gs, live, Shapes(info, aux))
    requires Queueable(info, aux, k) && k !in keys
    ensures forall a :: a in AreasOf(info, aux, keys) + live ==> Disjoint(a, AreaOf(info, aux, k))
  {
    var areas := AreasOf(info, aux, keys) + live;
    hide Queueable, AreaOf, Safe, Disjoint, Buildable;
    forall a | a in areas
      ensures Disjoint(a, AreaOf(info, aux, k))
    {
      var i :| 0 <= i < |areas| && areas[i] == a;
      if i < |keys| {
        assert keys[i] in keys;
        PartsApart(info, aux, keys[i], k);
      } else {
        PartVersusLive(info, aux, k, gs, live, i - |keys|);
        DisjointBothWays(AreaOf(info, aux, k), a);
      }
    }
  }

  lemma DisjointBothWays(r: Run, s: Run)
    ensures Disjoint(r, s) ==> Disjoint(s, r)
  {}

  lemma AreasMore(info: Info, aux: Aux, keys: seq<Key>, k: Key, live: seq<Run>)
    ensures forall a :: a in AreasOf(info, aux, keys) + live + [AreaOf(info, aux, k)] ==>
              a in AreasOf(info, aux, keys + [k]) + live
  {
    hide AreaOf;
    var old', new' := AreasOf(info, aux, keys) + live + [AreaOf(info, aux, k)], AreasOf(info, aux, keys + [k]) + live;
    forall a | a in old'
      ensures a in new'
    {
      var i :| 0 <= i < |old'| && old'[i] == a;
      if i < |keys| {
        assert new'[i] == a;
      } else if i < |keys| + |live| {
        assert new'[i + 1] == a;
      } else {
        assert new'[|keys|] == a;
      }
    }
  }

  /** An item for a part that has none yet. */
  lemma PartQueued(info: Info, aux: Aux, keys: seq<Key>, gs: seq<Group>, live: seq<Run>, items: seq<Item>, k: Key, x: Item)
    requires Buildable(info, aux) && Laid(info, aux, keys, gs, live, items)
    requires Queueable(info, aux, k) && k !in keys && info.blockSize > 0 && Fills(AreaOf(info, aux, k), x, info.blockSize)
    ensures Laid(info, aux, keys + [k], gs, live, WriteQueue.Insert(items, x))
  {
    var areas := AreasOf(info, aux, keys) + live;
    NewPartApart(info, aux, keys, gs, live, k);
    AreasMore(info, aux, keys, k, live);
    hide Settled, Fills, Safe, Disjoint, Buildable, Queueable, AreasOf, AreaOf, WriteQueue.Insert;
    AddItem(items, areas, AreaOf(info, aux, k), x, info.blockSize);
    MoreAreas(WriteQueue.Insert(items, x), areas + [AreaOf(info, aux, k)], AreasOf(info, aux, keys + [k]) + live, info.blockSize);
  }

  // ----- what the parts hold -----

  /** A buffer with these bytes is queued for the part. */
  ghost predicate PartHeld(items: seq<Item>, info: Info, aux: Aux, k: Key, data: seq<byte>) {
    var block := AreaOf(info, aux, k).block;
    0 <= block < 0x1_0000_0000 && Item(block, Memory(data)) in items
  }

  /** The bitmaps of the first n groups are queued, each group's own. */
  ghost predicate BitmapsHeld(items: seq<Item>, info: Info, aux: Aux, bitmaps: seq<seq<byte>>, n: nat)
    requires n <= |bitmaps|
  {
    forall i :: 0 <= i < n ==> PartHeld(items, info, aux, Key(i, Bitmaps), bitmaps[i])
  }

  /** The superblock and the descriptors are queued for every backup group among the first n. */
  ghost predicate CopiesHeld(items: seq<Item>, info: Info, aux: Aux, sb: seq<byte>, desc: seq<byte>, n: nat) {
    forall i :: 0 < i < n && HasSuperBlock(info.sparse, i) ==>
      PartHeld(items, info, aux, Key(i, SuperBlock), sb) && PartHeld(items, info, aux, Key(i, Descriptors), desc)
  }

  lemma PartIsHeld(items: seq<Item>, info: Info, aux: Aux, k: Key, block: u32, data: seq<byte>)
    requires block as nat == AreaOf(info, aux, k).block
    ensures PartHeld(WriteQueue.Insert(items, Item(block, Memory(data))), info, aux, k, data)
  {
    InsertedAre(items, Item(block, Memory(data)));
    hide AreaOf, WriteQueue.Insert;
  }

  lemma PartStays(items: seq<Item>, more: seq<Item>, info: Info, aux: Aux, k: Key, data: seq<byte>)
    requires PartHeld(items, info, aux, k, data) && forall x :: x in items ==> x in more
    ensures PartHeld(more, info, aux, k, data)
  {
    hide AreaOf;
  }

  lemma BitmapsStay(items: seq<Item>, more: seq<Item>, info: Info, aux: Aux, bitmaps: seq<seq<byte>>, n: nat)
    requires n <= |bitmaps| && BitmapsHeld(items, info, aux, bitmaps, n) && forall x :: x in items ==> x in more
    ensures BitmapsHeld(more, info, aux, bitmaps, n)
  {
    hide PartHeld;
    forall i | 0 <= i < n
      ensures PartHeld(more, info, aux, Key(i, Bitmaps), bitmaps[i])
    {
      PartStays(items, more, info, aux, Key(i, Bitmaps), bitmaps[i]);
    }
  }

  lemma CopiesStay(items: seq<Item>, more: seq<Item>, info: Info, aux: Aux, sb: seq<byte>, desc: seq<byte>, n: nat)
    requires CopiesHeld(items, info, aux, sb, desc, n) && forall x :: x in items ==> x in more
    ensures CopiesHeld(more, info, aux, sb, desc, n)
  {
    hide PartHeld, HasSuperBlock;
    forall i | 0 < i < n && HasSuperBlock(info.sparse, i)
      ensures PartHeld(more, info, aux, Key(i, SuperBlock), sb) && PartHeld(more, info, aux, Key(i, Descriptors), desc)
    {
      PartStays(items, more, info, aux, Key(i, SuperBlock), sb);
      PartStays(items, more, info, aux, Key(i, Descriptors), desc);
    }
  }

  lemma BitmapsNext(items: seq<Item>, info: Info, aux: Aux, bitmaps: seq<seq<byte>>, n: nat)
    requires n < |bitmaps| && BitmapsHeld(items, info, aux, bitmaps, n)
    requires PartHeld(items, info, aux, Key(n, Bitmaps), bitmaps[n])
    ensures BitmapsHeld(items, info, aux, bitmaps, n + 1)
  {
    hide PartHeld;
  }

  lemma CopiesNext(items: seq<Item>, info: Info, aux: Aux, sb: seq<byte>, desc: seq<byte>, n: nat)
    requires CopiesHeld(items, info, aux, sb, desc, n)
    requires 0 < n && HasSuperBlock(info.sparse, n) ==>
               PartHeld(items, info, aux, Key(n, SuperBlock), sb) && PartHeld(items, info, aux, Key(n, Descriptors), desc)
    ensures CopiesHeld(items, info, aux, sb, desc, n + 1)
  {
    hide PartHeld, HasSuperBlock;
  }

  lemma NothingHeldYet(items: seq<Item>, info: Info, aux: Aux, sb: seq<byte>, desc: seq<byte>, bitmaps: seq<seq<byte>>)
    ensures BitmapsHeld(items, info, aux, bitmaps, 0) && CopiesHeld(items, info, aux, sb, desc, 0)
  {}

  // ----- queueing the parts -----

  lemma AreaBounds(info: Info, aux: Aux, k: Key, super: bool)
    requires Buildable(info, aux) && Queueable(info, aux, k) && super == HasSuperBlock(info.sparse, k.group)
    ensures AreaOf(info, aux, k) == Run(FirstBlock(info, aux, k.group) + OffsetOf(aux, super, k.part), LengthOf(aux, k.part), k.group)
    ensures 0 <= FirstBlock(info, aux, k.group)
    ensures FirstBlock(info, aux, k.group) + OffsetOf(aux, super, k.part) < 0x1_0000_0000
  {
    Sizes(info, aux, k.group);
    AreaInHeader(info, aux, k);
    hide HasSuperBlock, FirstBlock, GroupHeader, GroupSize, Sound, OffsetOf;
  }

  lemma WholePart(r: Run, data: seq<byte>, bs: nat)
    requires bs > 0 && r.block < 0x1_0000_0000 && r.len > 0 && |data| == r.len * bs
    ensures Fills(r, Item(r.block, Memory(data)), bs)
  {
    MulGap(0, r.len, bs);
    DivRoundUpUnique(r.len * bs, bs, r.len);
    hide DivRoundUp;
  }

  /** Queues the whole of one part. */
  method QueuePart(q: Queue, info: Info, aux: Aux, ghost k: Key, block: u32, data: seq<byte>, ghost keys: seq<Key>,
                   ghost gs: seq<Group>, ghost live: seq<Run>)
    requires q.Valid() && Buildable(info, aux) && Laid(info, aux, keys, gs, live, q.Items())
    requires Queueable(info, aux, k) && k !in keys && block == AreaOf(info, aux, k).block && info.blockSize > 0
    requires LengthOf(aux, k.part) > 0 && |data| == LengthOf(aux, k.part) * info.blockSize
    modifies q, q.nodes
    ensures q.Valid() && Laid(info, aux, keys + [k], gs, live, q.Items())
    ensures q.Items() == WriteQueue.Insert(old(q.Items()), Item(block, Memory(data)))
    ensures PartHeld(q.Items(), info, aux, k, data) && forall x :: x in old(q.Items()) ==> x in q.Items()
    ensures forall i :: 0 <= i < |q.nodes| ==> fresh(q.nodes[i]) || q.nodes[i] in old(q.nodes)
  {
    LengthIs(info, aux, k);
    hide *;
    PartIsHeld(q.Items(), info, aux, k, block, data);
    InsertedAre(q.Items(), Item(block, Memory(data)));
    WholePart(AreaOf(info, aux, k), data, info.blockSize);
    PartQueued(info, aux, keys, gs, live, q.Items(), k, Item(block, Memory(data)));
    q.QueueDataBlock(data, block);
  }

  lemma LengthIs(info: Info, aux: Aux, k: Key)
    ensures AreaOf(info, aux, k).len == LengthOf(aux, k.part)
  {
    hide LengthOf, OffsetOf, HasSuperBlock, FirstBlock;
  }

  lemma BitmapsPlace(info: Info, aux: Aux, i: nat, super: bool)
    requires Buildable(info, aux) && i < aux.groups && super == HasSuperBlock(info.sparse, i)
    ensures Queueable(info, aux, Key(i, Bitmaps)) && LengthOf(aux, Bitmaps) == 2 && 0 <= FirstBlock(info, aux, i)
    ensures AreaOf(info, aux, Key(i, Bitmaps)).block
         == FirstBlock(info, aux, i) + (if super then 1 + aux.bgDescBlocks + aux.bgDescReserveBlocks else 0) < 0x1_0000_0000
  {
    AreaBounds(info, aux, Key(i, Bitmaps), super);
    hide HasSuperBlock, FirstBlock, Buildable, AreaOf;
  }

  lemma TablePlace(info: Info, aux: Aux, i: nat, super: bool)
    requires Buildable(info, aux) && i < aux.groups && super == HasSuperBlock(info.sparse, i)
    ensures Queueable(info, aux, Key(i, InodeTable)) && LengthOf(aux, InodeTable) == aux.inodeTableBlocks
    ensures 0 <= FirstBlock(info, aux, i)
    ensures AreaOf(info, aux, Key(i, InodeTable)).block
         == FirstBlock(info, aux, i) + 2 + (if super then aux.bgDescBlocks + aux.bgDescReserveBlocks + 1 else 0)
         < 0x1_0000_0000
  {
    AreaBounds(info, aux, Key(i, InodeTable), super);
    hide HasSuperBlock, FirstBlock, Buildable, AreaOf;
  }

  lemma NotAgain(keys: seq<Key>, k: Key, l: Key)
    requires l !in keys && k != l
    ensures l !in keys + [k]
  {}

  lemma CopiesPlace(info: Info, aux: Aux, i: nat)
    requires Buildable(info, aux) && 0 < i < aux.groups && HasSuperBlock(info.sparse, i)
    ensures Queueable(info, aux, Key(i, SuperBlock)) && Queueable(info, aux, Key(i, Descriptors))
    ensures LengthOf(aux, SuperBlock) == 1 && LengthOf(aux, Descriptors) == aux.bgDescBlocks
    ensures 0 <= FirstBlock(info, aux, i) == AreaOf(info, aux, Key(i, SuperBlock)).block
    ensures AreaOf(info, aux, Key(i, Descriptors)).block == FirstBlock(info, aux, i) + 1 < 0x1_0000_0000
  {
    AreaBounds(info, aux, Key(i, SuperBlock), true);
    AreaBounds(info, aux, Key(i, Descriptors), true);
    hide HasSuperBlock, FirstBlock, Buildable, AreaOf;
  }

  /** The part of init_bg that queues the two bitmaps of a group. */
  method QueueBitmaps(q: Queue, info: Info, aux: Aux, i: nat, super: bool, data: seq<byte>, ghost keys: seq<Key>,
                      ghost gs: seq<Group>, ghost live: seq<Run>) returns (block: u32)
    requires q.Valid() && Buildable(info, aux) && Laid(info, aux, keys, gs, live, q.Items())
    requires i < aux.groups && super == HasSuperBlock(info.sparse, i) && Key(i, Bitmaps) !in keys
    requires info.blockSize > 0 && |data| == 2 * info.blockSize
    modifies q, q.nodes
    ensures q.Valid() && Laid(info, aux, keys + [Key(i, Bitmaps)], gs, live, q.Items())
    ensures block as nat == AreaOf(info, aux, Key(i, Bitmaps)).block
    ensures q.Items() == WriteQueue.Insert(old(q.Items()), Item(block, Memory(data)))
    ensures PartHeld(q.Items(), info, aux, Key(i, Bitmaps), data) && forall x :: x in old(q.Items()) ==> x in q.Items()
    ensures forall j :: 0 <= j < |q.nodes| ==> fresh(q.nodes[j]) || q.nodes[j] in old(q.nodes)
  {
    hide *;
    BitmapsPlace(info, aux, i, super);
    block := FirstBlock(info, aux, i);
    if super {
      block := block + (1 + aux.bgDescBlocks + aux.bgDescReserveBlocks);
    }
    QueuePart(q, info, aux, Key(i, Bitmaps), block, data, keys, gs, live);
  }

  /** allocate_bg_inode_table, for a group whose table has not been queued: it begins behind the bitmaps. */
  method AllocateBgInodeTable(q: Queue, info: Info, aux: Aux, i: nat, super: bool, data: seq<byte>, ghost keys: seq<Key>,
                              ghost gs: seq<Group>, ghost live: seq<Run>) returns (block: u32)
    requires q.Valid() && Buildable(info, aux) && Laid(info, aux, keys, gs, live, q.Items())
    requires i < aux.groups && super == HasSuperBlock(info.sparse, i) && Key(i, InodeTable) !in keys
    requires info.blockSize > 0 && aux.inodeTableBlocks > 0 && |data| == aux.inodeTableBlocks * info.blockSize
    modifies q, q.nodes
    ensures q.Valid() && Laid(info, aux, keys + [Key(i, InodeTable)], gs, live, q.Items())
    ensures block as nat == AreaOf(info, aux, Key(i, InodeTable)).block
    ensures q.Items() == WriteQueue.Insert(old(q.Items()), Item(block, Memory(data)))
    ensures PartHeld(q.Items(), info, aux, Key(i, InodeTable), data) && forall x :: x in old(q.Items()) ==> x in q.Items()
    ensures forall j :: 0 <= j < |q.nodes| ==> fresh(q.nodes[j]) || q.nodes[j] in old(q.nodes)
  {
    hide *;
    TablePlace(info, aux, i, super);
    block := FirstBlock(info, aux, i) + 2;
    if super {
      block := block + (aux.bgDescBlocks + aux.bgDescReserveBlocks + 1);
    }
    QueuePart(q, info, aux, Key(i, InodeTable), block, data, keys, gs, live);
  }

  /** The part of ext4_fill_in_sb that queues a backup group's copies of the superblock and the descriptors. */
  method QueueCopies(q: Queue, info: Info, aux: Aux, i: nat, sb: seq<byte>, desc: seq<byte>, ghost keys: seq<Key>,
                     ghost gs: seq<Group>, ghost live: seq<Run>)
    requires q.Valid() && Buildable(info, aux) && Laid(info, aux, keys, gs, live, q.Items())
    requires 0 < i < aux.groups && HasSuperBlock(info.sparse, i)
    requires Key(i, SuperBlock) !in keys && Key(i, Descriptors) !in keys && info.blockSize > 0 && aux.bgDescBlocks > 0
    requires |sb| == info.blockSize && |desc| == aux.bgDescBlocks * info.blockSize
    modifies q, q.nodes
    ensures q.Valid() && Laid(info, aux, keys + [Key(i, SuperBlock)] + [Key(i, Descriptors)], gs, live, q.Items())
    ensures OnlyBuffers(old(q.Items())) ==> OnlyBuffers(q.Items())
    ensures PartHeld(q.Items(), info, aux, Key(i, SuperBlock), sb) && PartHeld(q.Items(), info, aux, Key(i, Descriptors), desc)
    ensures forall x :: x in old(q.Items()) ==> x in q.Items()
    ensures forall j :: 0 <= j < |q.nodes| ==> fresh(q.nodes[j]) || q.nodes[j] in old(q.nodes)
  {
    hide *;
    CopiesPlace(info, aux, i);
    var start := FirstBlock(info, aux, i);
    NotAgain(keys, Key(i, SuperBlock), Key(i, Descriptors));
    InsertBuffer(q.Items(), start, sb);
    QueuePart(q, info, aux, Key(i, SuperBlock), start, sb, keys, gs, live);
    InsertBuffer(q.Items(), start + 1, desc);
    ghost var items := q.Items();
    QueuePart(q, info, aux, Key(i, Descriptors), start + 1, desc, keys + [Key(i, SuperBlock)], gs, live);
    PartStays(items, q.Items(), info, aux, Key(i, SuperBlock), sb);
  }

  /** Neither inode tables nor reserved blocks have been queued. */
  ghost predicate InitKeys(keys: seq<Key>) {
    forall k :: k in keys ==> k.part != InodeTable && k.part != ReservedDescriptors
  }

  /** The queue after block_allocator_init and ext4_fill_in_sb. */
  method QueueHeaders(q: Queue, info: Info, aux: Aux, sb: seq<byte>, desc: seq<byte>, bitmaps: seq<seq<byte>>,
                      ghost gs: seq<Group>) returns (ghost keys: seq<Key>)
    requires q.Valid() && Buildable(info, aux) && Laid(info, aux, [], gs, [], q.Items())
    requires info.blockSize > 0 && aux.bgDescBlocks > 0
    requires |sb| == info.blockSize && |desc| == aux.bgDescBlocks * info.blockSize
    requires |bitmaps| == aux.groups && forall i :: 0 <= i < |bitmaps| ==> |bitmaps[i]| == 2 * info.blockSize
    modifies q, q.nodes
    ensures q.Valid() && InitKeys(keys) && Laid(info, aux, keys, gs, [], q.Items())
    ensures OnlyBuffers(old(q.Items())) ==> OnlyBuffers(q.Items())
    ensures forall i :: 0 <= i < aux.groups ==> Key(i, Bitmaps) in keys
    ensures forall i :: 0 < i < aux.groups && HasSuperBlock(info.sparse, i) ==>
              Key(i, SuperBlock) in keys && Key(i, Descriptors) in keys
    ensures BitmapsHeld(q.Items(), info, aux, bitmaps, |bitmaps|) && CopiesHeld(q.Items(), info, aux, sb, desc, aux.groups)
    ensures forall i :: 0 <= i < |q.nodes| ==> fresh(q.nodes[i]) || q.nodes[i] in old(q.nodes)
  {
    hide Laid, Buildable, HasSuperBlock, Queue.Valid, Queue.Items, OnlyBuffers, WriteQueue.Insert, BitmapsHeld, CopiesHeld;
    hide PartHeld, AreaOf;
    keys := [];
    NothingHeldYet(q.Items(), info, aux, sb, desc, bitmaps);
    for i := 0 to aux.groups
      invariant q.Valid() && Laid(info, aux, keys, gs, [], q.Items())
      invariant OnlyBuffers(old(q.Items())) ==> OnlyBuffers(q.Items())
      invariant forall k :: k in keys ==> k.part == Bitmaps && k.group < i
      invariant forall j :: 0 <= j < i ==> Key(j, Bitmaps) in keys
      invariant BitmapsHeld(q.Items(), info, aux, bitmaps, i)
      invariant forall j :: 0 <= j < |q.nodes| ==> fresh(q.nodes[j]) || q.nodes[j] in old(q.nodes)
    {
      var super := BgHasSuperBlock(info.sparse, i);
      ghost var items := q.Items();
      var block := QueueBitmaps(q, info, aux, i, super, bitmaps[i], keys, gs, []);
      InsertBuffer(items, block, bitmaps[i]);
      BitmapsStay(items, q.Items(), info, aux, bitmaps, i);
      BitmapsNext(q.Items(), info, aux, bitmaps, i);
      keys := keys + [Key(i, Bitmaps)];
    }
    NothingHeldYet(q.Items(), info, aux, sb, desc, bitmaps);
    for i := 0 to aux.groups
      invariant q.Valid() && Laid(info, aux, keys, gs, [], q.Items())
      invariant OnlyBuffers(old(q.Items())) ==> OnlyBuffers(q.Items())
      invariant BitmapsHeld(q.Items(), info, aux, bitmaps, |bitmaps|) && CopiesHeld(q.Items(), info, aux, sb, desc, i)
      invariant forall k :: k in keys ==> k.part == Bitmaps || (k.part in {SuperBlock, Descriptors} && k.group < i)
      invariant forall j :: 0 <= j < aux.groups ==> Key(j, Bitmaps) in keys
      invariant forall j :: 0 < j < i && HasSuperBlock(info.sparse, j) ==>
                  Key(j, SuperBlock) in keys && Key(j, Descriptors) in keys
      invariant forall j :: 0 <= j < |q.nodes| ==> fresh(q.nodes[j]) || q.nodes[j] in old(q.nodes)
    {
      var super := BgHasSuperBlock(info.sparse, i);
      ghost var items := q.Items();
      if super && i != 0 {
        QueueCopies(q, info, aux, i, sb, desc, keys, gs, []);
        keys := keys + [Key(i, SuperBlock)] + [Key(i, Descriptors)];
        BitmapsStay(items, q.Items(), info, aux, bitmaps, |bitmaps|);
        CopiesStay(items, q.Items(), info, aux, sb, desc, i);
      }
      CopiesNext(q.Items(), info, aux, sb, desc, i);
    }
  }
}
