/** The extent tree of an inode as bytes: the root in i_block, at most one leaf block, and how they are read. */
module ExtentTree {
  import opened Words
  import opened AllocatorSpec
  import opened ExtentsSpec

  const EXT_MAGIC: u16 := 0xF30A

  /** EXT_INIT_MAX_LEN: a longer extent stands for blocks that were never written. */
  const INIT_MAX_LEN: nat := 0x8000

  const ROOT_LEN: nat := 60    // i_block

  /** struct ext4_extent */
  datatype Slot = Slot(eeBlock: u32, eeLen: u16, eeStartHi: u16, eeStartLo: u32)

  /** struct ext4_extent_header */
  datatype Head = Head(magic: u16, entries: u16, max: u16, depth: u16, generation: u32)

  /** struct ext4_extent_idx */
  datatype Index = Index(eiBlock: u32, leafLo: u32, leafHi: u16, unused: u16)

  function EncodeSlot(s: Slot): (b: seq<byte>)
    ensures |b| == 12
  {
    Le32(s.eeBlock) + (Le16(s.eeLen) + Le16(s.eeStartHi)) + Le32(s.eeStartLo)
  }

  function DecodeSlot(b: seq<byte>): Slot
    requires |b| == 12
  {
    Slot(FromLe32(b[..4]), FromLe16(b[4..6]), FromLe16(b[6..8]), FromLe32(b[8..]))
  }

  function EncodeHead(h: Head): (b: seq<byte>)
    ensures |b| == 12
  {
    (Le16(h.magic) + Le16(h.entries)) + (Le16(h.max) + Le16(h.depth)) + Le32(h.generation)
  }

  function DecodeHead(b: seq<byte>): Head
    requires |b| == 12
  {
    Head(FromLe16(b[..2]), FromLe16(b[2..4]), FromLe16(b[4..6]), FromLe16(b[6..8]), FromLe32(b[8..]))
  }

  function EncodeIndex(x: Index): (b: seq<byte>)
    ensures |b| == 12
  {
    Le32(x.eiBlock) + Le32(x.leafLo) + (Le16(x.leafHi) + Le16(x.unused))
  }

  function DecodeIndex(b: seq<byte>): Index
    requires |b| == 12
  {
    Index(FromLe32(b[..4]), FromLe32(b[4..8]), FromLe16(b[8..10]), FromLe16(b[10..]))
  }

  function EncodeSlots(slots: seq<Slot>): (b: seq<byte>)
    ensures |b| == 12 * |slots|
  {
    if slots == [] then [] else EncodeSlots(slots[..|slots| - 1]) + EncodeSlot(slots[|slots| - 1])
  }

  function DecodeSlots(b: seq<byte>, n: nat): (slots: seq<Slot>)
    requires |b| == 12 * n
    ensures |slots| == n
  {
    if n == 0 then [] else DecodeSlots(b[..12 * (n - 1)], n - 1) + [DecodeSlot(b[12 * (n - 1)..])]
  }

  /** A node: a header, entries, and zeros up to its size. */
  function Node(h: Head, body: seq<byte>, size: nat): (b: seq<byte>)
    ensures |b| >= 12 && (12 + |body| <= size ==> |b| == size)
  {
    EncodeHead(h) + body + Zeros(if 12 + |body| <= size then size - 12 - |body| else 0)
  }

  // ----- reading -----

  datatype Table = Entries(slots: seq<Slot>) | Damaged

  /** The extents of a leaf. */
  function ReadLeaf(node: seq<byte>): Table {
    if |node| < 12 then Damaged
    else
      var h := DecodeHead(node[..12]);
      if h.magic != EXT_MAGIC || h.depth != 0 || 12 + 12 * h.entries > |node| then Damaged
      else Entries(DecodeSlots(node[12..12 + 12 * h.entries], h.entries))
  }

  /** The extents below a root: its own, or those of the one leaf block it points at. */
  function ReadTree(root: seq<byte>, image: seq<byte>, bs: nat): Table {
    if |root| < 24 then Damaged
    else
      var h := DecodeHead(root[..12]);
      if h.depth == 0 then ReadLeaf(root)
      else if h.magic != EXT_MAGIC || h.depth != 1 || h.entries != 1 then Damaged
      else
        var x := DecodeIndex(root[12..24]);
        var at := Bytes(x.leafLo + TWO32 * (x.leafHi as int), bs);
        if at + bs <= |image| then ReadLeaf(image[at..at + bs]) else Damaged
  }

  function StartOf(s: Slot): nat { s.eeStartLo + TWO32 * (s.eeStartHi as int) }

  predicate Covers(s: Slot, fb: nat, max: nat) {
    s.eeLen <= max && s.eeBlock <= fb < s.eeBlock + s.eeLen
  }

  /** The block of a file block through extents of at most max blocks, or -1. */
  function SlotLookup(slots: seq<Slot>, fb: nat, max: nat): int {
    if slots == [] then -1
    else
      var s := slots[|slots| - 1];
      if Covers(s, fb, max) then StartOf(s) + (fb - s.eeBlock) else SlotLookup(slots[..|slots| - 1], fb, max)
  }

  /** Byte o of a file read from the image through its tree. */
  ghost predicate TreeReadsByte(root: seq<byte>, image: seq<byte>, bs: nat, o: nat, b: byte)
    requires bs > 0
  {
    var t := ReadTree(root, image, bs);
    t.Entries? && FoundAt(image, SlotLookup(t.slots, Div(o, bs), INIT_MAX_LEN), bs, o, b)
  }

  /** The whole file comes back. */
  ghost predicate TreeReads(root: seq<byte>, image: seq<byte>, bs: nat, data: seq<byte>)
    requires bs > 0
  {
    forall o :: 0 <= o < |data| ==> TreeReadsByte(root, image, bs, o, data[o])
  }

  // ----- the bytes decode to what was encoded -----

  lemma {:induction false} SlotBack(s: Slot)
    ensures DecodeSlot(EncodeSlot(s)) == s
  {
    var b := EncodeSlot(s);
    assert b[..4] == Le32(s.eeBlock) && b[4..6] == Le16(s.eeLen) && b[6..8] == Le16(s.eeStartHi);
    assert b[8..] == Le32(s.eeStartLo);
    hide Le16, Le32, FromLe16, FromLe32, EncodeSlot;
    Le32RoundTrip(s.eeBlock);
    Le16RoundTrip(s.eeLen);
    Le16RoundTrip(s.eeStartHi);
    Le32RoundTrip(s.eeStartLo);
  }

  lemma {:induction false} HeadBack(h: Head)
    ensures DecodeHead(EncodeHead(h)) == h
  {
    var b := EncodeHead(h);
    assert b[..2] == Le16(h.magic) && b[2..4] == Le16(h.entries) && b[4..6] == Le16(h.max) && b[6..8] == Le16(h.depth);
    assert b[8..] == Le32(h.generation);
    hide Le16, Le32, FromLe16, FromLe32, EncodeHead;
    Le16RoundTrip(h.magic);
    Le16RoundTrip(h.entries);
    Le16RoundTrip(h.max);
    Le16RoundTrip(h.depth);
    Le32RoundTrip(h.generation);
  }

  lemma {:induction false} IndexBack(x: Index)
    ensures DecodeIndex(EncodeIndex(x)) == x
  {
    var b := EncodeIndex(x);
    assert b[..4] == Le32(x.eiBlock) && b[4..8] == Le32(x.leafLo) && b[8..10] == Le16(x.leafHi);
    assert b[10..] == Le16(x.unused);
    hide Le16, Le32, FromLe16, FromLe32, EncodeIndex;
    Le32RoundTrip(x.eiBlock);
    Le32RoundTrip(x.leafLo);
    Le16RoundTrip(x.leafHi);
    Le16RoundTrip(x.unused);
  }

  lemma {:induction false} DecodeMore(b: seq<byte>, n: nat, t: seq<byte>)
    requires |b| == 12 * n && |t| == 12
    ensures DecodeSlots(b + t, n + 1) == DecodeSlots(b, n) + [DecodeSlot(t)]
  {
    assert (b + t)[..12 * n] == b && (b + t)[12 * n..] == t;
    hide DecodeSlot;
  }

  lemma {:induction false} SlotsBack(slots: seq<Slot>)
    ensures DecodeSlots(EncodeSlots(slots), |slots|) == slots
  {
    if slots == [] {
      assert EncodeSlots(slots) == [];
    } else {
      var n := |slots| - 1;
      SlotBack(slots[n]);
      hide DecodeSlots, DecodeSlot, EncodeSlot;
      SlotsBack(slots[..n]);
      DecodeMore(EncodeSlots(slots[..n]), n, EncodeSlot(slots[n]));
      assert slots[..n] + [slots[n]] == slots;
    }
  }

  /** An entry that was never filled in. */
  const NO_SLOT: Slot := Slot(0, 0, 0, 0)

  function NoSlots(m: nat): (slots: seq<Slot>)
    ensures |slots| == m
  {
    seq(m, _ => NO_SLOT)
  }

  lemma {:induction false} NoSlotBack()
    ensures DecodeSlot(Zeros(12)) == NO_SLOT
  {}

  /** Entries counted but not filled in read as empty extents. */
  lemma {:induction false} DecodeUnfilled(b: seq<byte>, n: nat, m: nat)
    requires |b| == 12 * n
    ensures DecodeSlots(b + Zeros(12 * m), n + m) == DecodeSlots(b, n) + NoSlots(m)
  {
    hide *;
    if m == 0 {
      NothingUnfilled(b, n);
    } else {
      NoSlotBack();
      DecodeUnfilled(b, n, m - 1);
      DecodeMore(b + Zeros(12 * (m - 1)), n + (m - 1), Zeros(12));
      OneUnfilled(b, DecodeSlots(b, n), m);
    }
  }

  lemma NothingUnfilled(b: seq<byte>, n: nat)
    requires |b| == 12 * n
    ensures b + Zeros(12 * 0) == b && DecodeSlots(b, n) + NoSlots(0) == DecodeSlots(b, n)
  {}

  lemma OneUnfilled(b: seq<byte>, slots: seq<Slot>, m: nat)
    requires m > 0
    ensures b + Zeros(12 * m) == (b + Zeros(12 * (m - 1))) + Zeros(12)
    ensures slots + NoSlots(m) == (slots + NoSlots(m - 1)) + [NO_SLOT]
  {}

  /** The node of an extent list, with its count of entries. */
  function ExtentNode(entries: u16, max: u16, slots: seq<Slot>, size: nat): seq<byte> {
    Node(Head(EXT_MAGIC, entries, max, 0, 0), EncodeSlots(slots), size)
  }

  lemma {:induction false} NodeParts(h: Head, body: seq<byte>, size: nat, n: nat)
    requires |body| <= n && 12 + n <= size
    ensures |Node(h, body, size)| == size && Node(h, body, size)[..12] == EncodeHead(h)
    ensures Node(h, body, size)[12..12 + n] == body + Zeros(n - |body|)
  {}

  lemma {:induction false} LeafIs(node: seq<byte>, h: Head, body: seq<byte>)
    requires |node| >= 12 && DecodeHead(node[..12]) == h && h.magic == EXT_MAGIC && h.depth == 0
    requires |body| == 12 * h.entries && 12 + 12 * h.entries <= |node| && node[12..12 + 12 * h.entries] == body
    ensures ReadLeaf(node) == Entries(DecodeSlots(body, h.entries))
  {
    hide DecodeHead, DecodeSlots;
  }

  lemma NodeIs(entries: u16, max: u16, slots: seq<Slot>, size: nat)
    ensures ExtentNode(entries, max, slots, size) == Node(Head(EXT_MAGIC, entries, max, 0, 0), EncodeSlots(slots), size)
  {}

  /** A node is read as its extents, followed by the entries that were counted but not filled in. */
  lemma {:induction false} NodeReads(entries: u16, max: u16, slots: seq<Slot>, size: nat)
    requires |slots| <= entries && 12 + 12 * entries <= size
    ensures ReadLeaf(ExtentNode(entries, max, slots, size)) == Entries(slots + NoSlots(entries - |slots|))
  {
    hide *;
    var h := Head(EXT_MAGIC, entries, max, 0, 0);
    NodeIs(entries, max, slots, size);
    NodeParts(h, EncodeSlots(slots), size, 12 * entries);
    HeadBack(h);
    SlotsBack(slots);
    DecodeUnfilled(EncodeSlots(slots), |slots|, entries - |slots|);
    LeafIs(Node(h, EncodeSlots(slots), size), h, EncodeSlots(slots) + Zeros(12 * (entries - |slots|)));
  }

  lemma {:induction false} LookupUnfilled(slots: seq<Slot>, m: nat, fb: nat, max: nat)
    ensures SlotLookup(slots + NoSlots(m), fb, max) == SlotLookup(slots, fb, max)
  {
    if m == 0 {
      assert slots + NoSlots(0) == slots;
    } else {
      var all := slots + NoSlots(m);
      assert all[..|all| - 1] == slots + NoSlots(m - 1) && all[|all| - 1] == NO_SLOT;
      LookupUnfilled(slots, m - 1, fb, max);
    }
  }

  // ----- the stored extents of a list of regions -----

  /** One extent, its fields cut to their widths. */
  function SlotOf(e: Extent): Slot {
    Slot(e.first % TWO32, e.len % 0x1_0000, 0, e.block % TWO32)
  }

  function SlotsOf(runs: seq<Run>, k: nat): (slots: seq<Slot>)
    requires k <= |runs|
    ensures |slots| == k
  {
    if k == 0 then [] else SlotsOf(runs, k - 1) + [SlotOf(ExtentAt(runs, k - 1))]
  }

  lemma {:induction false} SlotsAt(runs: seq<Run>, k: nat, i: nat)
    requires i < k <= |runs|
    ensures SlotsOf(runs, k)[i] == SlotOf(ExtentAt(runs, i))
  {
    if i < k - 1 {
      SlotsAt(runs, k - 1, i);
    }
  }

  /** No block number and no file block is cut. */
  ghost predicate Narrow(runs: seq<Run>) {
    Prefix(runs, |runs|) < 0x1_0000_0000 && forall i :: 0 <= i < |runs| ==> runs[i].block < 0x1_0000_0000
  }

  lemma {:induction false} NarrowAt(runs: seq<Run>, i: nat)
    requires Narrow(runs) && i < |runs|
    ensures Prefix(runs, i) < 0x1_0000_0000 && runs[i].block < 0x1_0000_0000
  {
    PrefixGrows(runs, i, |runs|);
  }

  lemma SlotFields(runs: seq<Run>, i: nat)
    requires i < |runs| && Prefix(runs, i) < 0x1_0000_0000 && runs[i].block < 0x1_0000_0000
    ensures var s := SlotOf(ExtentAt(runs, i));
            s.eeBlock == Prefix(runs, i) && s.eeLen == runs[i].len % 0x1_0000 && StartOf(s) == runs[i].block
  {
    hide Prefix;
  }

  /** Every region fits in one extent of at most max blocks. */
  ghost predicate ShortRegions(runs: seq<Run>, max: nat) {
    forall i :: 0 <= i < |runs| ==> runs[i].len <= max
  }

  lemma {:induction false} SlotsSplit(runs: seq<Run>, k: nat)
    requires 0 < k <= |runs|
    ensures SlotsOf(runs, k)[..k - 1] == SlotsOf(runs, k - 1) && SlotsOf(runs, k)[k - 1] == SlotOf(ExtentAt(runs, k - 1))
    ensures ExtentsOf(runs, k)[..k - 1] == ExtentsOf(runs, k - 1) && ExtentsOf(runs, k)[k - 1] == ExtentAt(runs, k - 1)
  {}

  lemma ShortSlot(runs: seq<Run>, i: nat, fb: nat, max: nat)
    requires i < |runs| && Narrow(runs) && ShortRegions(runs, max) && max < 0x1_0000
    ensures var s, e := SlotOf(ExtentAt(runs, i)), ExtentAt(runs, i);
            && s.eeBlock == e.first && StartOf(s) == e.block
            && (Covers(s, fb, max) <==> e.first <= fb < e.first + e.len)
  {
    NarrowAt(runs, i);
    SlotFields(runs, i);
    hide Narrow, SlotOf, Prefix;
  }

  lemma {:induction false} ShortExact(runs: seq<Run>, k: nat, fb: nat, max: nat)
    requires k <= |runs| && Narrow(runs) && ShortRegions(runs, max) && max < 0x1_0000
    ensures SlotLookup(SlotsOf(runs, k), fb, max) == Lookup(ExtentsOf(runs, k), fb)
  {
    if k > 0 {
      SlotsSplit(runs, k);
      ShortSlot(runs, k - 1, fb, max);
      hide SlotsOf, ExtentsOf, Narrow, SlotOf, Prefix, ExtentAt, StartOf, Covers, ShortRegions;
      ShortExact(runs, k - 1, fb, max);
    }
  }

  /** A block behind the first max of a longer region is not found. */
  lemma {:induction false} LongLost(runs: seq<Run>, k: nat, i: nat, max: nat)
    requires i < |runs| && k <= |runs| && Narrow(runs) && runs[i].len > max
    ensures SlotLookup(SlotsOf(runs, k), Prefix(runs, i) + max, max) == -1
  {
    if k > 0 {
      SlotsSplit(runs, k);
      NarrowAt(runs, k - 1);
      SlotFields(runs, k - 1);
      if k - 1 < i {
        PrefixGrows(runs, k, i);
      } else if i < k - 1 {
        PrefixGrows(runs, i + 1, k - 1);
      }
      hide SlotsOf, Narrow, SlotOf;
      LongLost(runs, k - 1, i, max);
    }
  }

  ghost predicate Exact(runs: seq<Run>, max: nat) {
    forall fb: nat :: SlotLookup(SlotsOf(runs, |runs|), fb, max) == Lookup(ExtentsOf(runs, |runs|), fb)
  }

  /** The stored extents find every block of the regions exactly when each region fits in one extent. */
  lemma {:induction false} StoredIffShort(runs: seq<Run>, max: nat)
    requires Narrow(runs) && max < 0x1_0000
    ensures Exact(runs, max) <==> ShortRegions(runs, max)
  {
    hide SlotLookup, SlotsOf, ExtentsOf, Lookup, Narrow;
    if ShortRegions(runs, max) {
      forall fb: nat
        ensures SlotLookup(SlotsOf(runs, |runs|), fb, max) == Lookup(ExtentsOf(runs, |runs|), fb)
      {
        ShortExact(runs, |runs|, fb, max);
      }
    } else {
      var i :| 0 <= i < |runs| && runs[i].len > max;
      LongLost(runs, |runs|, i, max);
      LookupIs(runs, |runs|, i, max);
    }
  }

  // ----- the tree of a file -----

  /** i_block: the extents themselves, or one index entry for the extent block. */
  function RootOf(runs: seq<Run>, leaf: u32, regions: nat): seq<byte> {
    if leaf == 0 then ExtentNode(regions % 0x1_0000, 3, SlotsOf(runs, |runs|), ROOT_LEN)
    else Node(Head(EXT_MAGIC, 1, 3, 1, 0), EncodeIndex(Index(0, leaf, 0, 0)), ROOT_LEN)
  }

  /** The extent block. */
  function LeafBlock(runs: seq<Run>, regions: nat, bs: nat): seq<byte> {
    ExtentNode(regions % 0x1_0000, MaxEntries(bs) % 0x1_0000, SlotsOf(runs, |runs|), bs)
  }

  function MaxEntries(bs: nat): nat { if bs < 12 then 0 else (bs - 12) / 12 }

  lemma MaxEntriesFit(bs: nat, n: nat)
    requires n <= MaxEntries(bs) && bs >= 12
    ensures 12 + 12 * n <= bs
  {}

  lemma {:induction false} InlineReads(runs: seq<Run>, regions: nat, image: seq<byte>, bs: nat)
    requires |runs| <= regions <= 4
    ensures ReadTree(RootOf(runs, 0, regions), image, bs) == Entries(SlotsOf(runs, |runs|) + NoSlots(regions - |runs|))
  {
    RootFlat(runs, regions);
    hide *;
    var slots := SlotsOf(runs, |runs|);
    var h := Head(EXT_MAGIC, regions, 3, 0, 0);
    NodeReads(regions, 3, slots, 60);
    NodeIs(regions, 3, slots, 60);
    NodeParts(h, EncodeSlots(slots), 60, 12 * regions);
    HeadBack(h);
    FlatTree(RootOf(runs, 0, regions), h, image, bs);
  }

  lemma RootFlat(runs: seq<Run>, regions: nat)
    requires regions <= 4
    ensures RootOf(runs, 0, regions) == ExtentNode(regions, 3, SlotsOf(runs, |runs|), 60)
  {
    hide Node, ExtentNode, SlotsOf, EncodeIndex;
  }

  lemma RootDeep(runs: seq<Run>, leaf: u32, regions: nat)
    requires leaf != 0
    ensures RootOf(runs, leaf, regions) == Node(Head(EXT_MAGIC, 1, 3, 1, 0), EncodeIndex(Index(0, leaf, 0, 0)), 60)
  {
    hide Node, ExtentNode, SlotsOf, EncodeIndex;
  }

  lemma FlatTree(root: seq<byte>, h: Head, image: seq<byte>, bs: nat)
    requires |root| >= 24 && DecodeHead(root[..12]) == h && h.depth == 0
    ensures ReadTree(root, image, bs) == ReadLeaf(root)
  {
    hide DecodeHead, ReadLeaf;
  }

  lemma DeepTree(root: seq<byte>, h: Head, x: Index, image: seq<byte>, bs: nat)
    requires |root| >= 24 && DecodeHead(root[..12]) == h && h.magic == EXT_MAGIC && h.depth == 1 && h.entries == 1
    requires DecodeIndex(root[12..24]) == x && x.leafHi == 0 && Bytes(x.leafLo, bs) + bs <= |image|
    ensures ReadTree(root, image, bs) == ReadLeaf(image[Bytes(x.leafLo, bs)..Bytes(x.leafLo, bs) + bs])
  {
    hide DecodeHead, DecodeIndex, ReadLeaf, Bytes;
  }

  /** With the extent block in the image at the leaf number, the tree is read as the stored extents. */
  lemma {:induction false} LeafReads(runs: seq<Run>, leaf: u32, regions: nat, image: seq<byte>, bs: nat)
    requires leaf != 0 && |runs| <= regions < 0x1_0000 && regions <= MaxEntries(bs) && bs >= 12
    requires Bytes(leaf, bs) + bs <= |image| && image[Bytes(leaf, bs)..Bytes(leaf, bs) + bs] == LeafBlock(runs, regions, bs)
    ensures ReadTree(RootOf(runs, leaf, regions), image, bs) == Entries(SlotsOf(runs, |runs|) + NoSlots(regions - |runs|))
  {
    RootDeep(runs, leaf, regions);
    MaxEntriesFit(bs, regions);
    hide *;
    var h, x := Head(EXT_MAGIC, 1, 3, 1, 0), Index(0, leaf, 0, 0);
    NodeParts(h, EncodeIndex(x), 60, 12);
    HeadBack(h);
    IndexBack(x);
    NoZeros(EncodeIndex(x));
    DeepTree(RootOf(runs, leaf, regions), h, x, image, bs);
    ExtentBlockReads(runs, regions, bs);
  }

  lemma NoZeros(b: seq<byte>)
    ensures b + Zeros(0) == b
  {}

  lemma {:induction false} ExtentBlockReads(runs: seq<Run>, regions: nat, bs: nat)
    requires |runs| <= regions < 0x1_0000 && 12 + 12 * regions <= bs
    ensures ReadLeaf(LeafBlock(runs, regions, bs)) == Entries(SlotsOf(runs, |runs|) + NoSlots(regions - |runs|))
  {
    NodeReads(regions, MaxEntries(bs) % 0x1_0000, SlotsOf(runs, |runs|), bs);
    hide *;
    ExtentBlockIs(runs, regions, bs);
  }

  lemma ExtentBlockIs(runs: seq<Run>, regions: nat, bs: nat)
    requires regions < 0x1_0000
    ensures LeafBlock(runs, regions, bs) == ExtentNode(regions, MaxEntries(bs) % 0x1_0000, SlotsOf(runs, |runs|), bs)
  {
    hide ExtentNode, SlotsOf, MaxEntries;
  }

  // ----- the stored bytes -----

  lemma FixedFields()
    ensures Le16(0xF30A) == [0x0A, 0xF3] && Le16(0) == [0, 0] && Le16(1) == [1, 0] && Le16(3) == [3, 0]
    ensures Le32(0) == [0, 0, 0, 0]
  {}

  lemma HeadBytes(h: Head)
    requires h.magic == 0xF30A && h.generation == 0
    ensures EncodeHead(h) == [0x0A, 0xF3] + Le16(h.entries) + Le16(h.max) + Le16(h.depth) + [0, 0, 0, 0]
  {
    FixedFields();
    hide Le16, Le32;
  }

  lemma NodeFront(h: Head, body: seq<byte>, size: nat)
    ensures Node(h, body, size)[..12] == EncodeHead(h)
    ensures |Node(h, body, size)| >= 12 + |body| && Node(h, body, size)[12..12 + |body|] == body
  {
    hide EncodeHead, Zeros;
  }

  /** The root byte by byte: the magic number, the counts, the depth, and below a leaf its block number. */
  lemma {:induction false} RootBytes(runs: seq<Run>, leaf: u32, regions: nat)
    requires regions < 0x1_0000
    ensures |RootOf(runs, leaf, regions)| >= 12 && (leaf != 0 ==> |RootOf(runs, leaf, regions)| == 60)
    ensures leaf == 0 ==> RootOf(runs, leaf, regions)[..12]
                          == [0x0A, 0xF3] + Le16(regions) + [3, 0] + [0, 0] + [0, 0, 0, 0]
    ensures leaf != 0 ==> RootOf(runs, leaf, regions)[..12] == [0x0A, 0xF3] + [1, 0] + [3, 0] + [1, 0] + [0, 0, 0, 0]
    ensures leaf != 0 ==> RootOf(runs, leaf, regions)[12..24] == [0, 0, 0, 0] + Le32(leaf) + [0, 0, 0, 0]
  {
    FixedFields();
    assert EXT_MAGIC == 0xF30A && ROOT_LEN == 60;
    var flat, deep := Head(0xF30A, regions, 3, 0, 0), Head(0xF30A, 1, 3, 1, 0);
    HeadBytes(flat);
    HeadBytes(deep);
    NodeFront(flat, EncodeSlots(SlotsOf(runs, |runs|)), 60);
    NodeFront(deep, EncodeIndex(Index(0, leaf, 0, 0)), 60);
    assert EncodeIndex(Index(0, leaf, 0, 0)) == [0, 0, 0, 0] + Le32(leaf) + [0, 0, 0, 0];
    hide Node, EncodeHead, EncodeIndex, EncodeSlots, SlotsOf, Le16, Le32;
  }

  /** The head of the extent block. */
  lemma {:induction false} LeafBytes(runs: seq<Run>, regions: nat, bs: nat)
    requires regions < 0x1_0000 && 12 <= bs < 0x1_0000
    ensures |LeafBlock(runs, regions, bs)| >= 12
    ensures LeafBlock(runs, regions, bs)[..12]
         == [0x0A, 0xF3] + Le16(regions) + Le16((bs - 12) / 12) + [0, 0] + [0, 0, 0, 0]
  {
    FixedFields();
    assert EXT_MAGIC == 0xF30A;
    var max: nat := (bs - 12) / 12;
    assert max % 0x1_0000 == max == MaxEntries(bs);
    var h := Head(0xF30A, regions, max, 0, 0);
    HeadBytes(h);
    NodeFront(h, EncodeSlots(SlotsOf(runs, |runs|)), bs);
    hide Node, EncodeHead, EncodeSlots, SlotsOf, Le16, MaxEntries;
  }

  lemma {:induction false} SlotInSlots(slots: seq<Slot>, i: nat)
    requires i < |slots|
    ensures EncodeSlots(slots)[12 * i..12 * i + 12] == EncodeSlot(slots[i])
  {
    hide EncodeSlot;
    var n := |slots| - 1;
    if i < n {
      SlotInSlots(slots[..n], i);
    }
  }

  /** Entry i behind a head: file block, length, and block, each cut to its width. */
  lemma {:induction false} EntryBytes(runs: seq<Run>, i: nat)
    requires i < |runs|
    ensures EncodeSlots(SlotsOf(runs, |runs|))[12 * i..12 * i + 12]
         == Le32(Prefix(runs, i) % 0x1_0000_0000) + Le16(runs[i].len % 0x1_0000) + [0, 0] + Le32(runs[i].block % 0x1_0000_0000)
  {
    FixedFields();
    SlotsAt(runs, |runs|, i);
    SlotInSlots(SlotsOf(runs, |runs|), i);
    assert TWO32 == 0x1_0000_0000;
    hide EncodeSlots, SlotsOf, Le16, Le32, Prefix;
  }
}
