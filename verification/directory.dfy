/** The bytes of a directory: records written one behind the other, and read back along their length fields. */
module Directory {
  import opened Words
  import opened DirectoryLayout

  datatype Entry = Entry(name: seq<byte>, kind: byte)

  /** One record: where it is, how far its length field reaches, and what it says. */
  datatype Rec = Rec(at: nat, len: nat, inode: u32, kind: byte, name: seq<byte>)

  predicate Encodable(r: Rec) { r.len < 0x1_0000 && |r.name| < 0x100 && 8 + |r.name| <= r.len }

  /** The bytes of struct ext4_dir_entry_2. */
  function Encode(r: Rec): (s: seq<byte>)
    requires Encodable(r)
    ensures |s| == 8 + |r.name|
  {
    Le32(r.inode) + Le16(r.len) + [|r.name|, r.kind] + r.name
  }

  /** The bytes are found at the record's place. */
  ghost predicate Holds(d: seq<byte>, r: Rec) {
    Encodable(r) && r.at + 8 + |r.name| <= |d| && d[r.at..r.at + 8 + |r.name|] == Encode(r)
  }

  /** Each record begins where the length of the one before it ends. */
  ghost predicate Chain(recs: seq<Rec>, end: nat) {
    (if recs == [] then end == 0 else recs[0].at == 0 && recs[|recs| - 1].at + recs[|recs| - 1].len == end)
    && forall k :: 0 < k < |recs| ==> recs[k].at == recs[k - 1].at + recs[k - 1].len
  }

  /** No record crosses a block boundary. */
  ghost predicate InBlocks(recs: seq<Rec>, bs: nat)
    requires bs > 0
  {
    forall k :: 0 <= k < |recs| ==> recs[k].len > 0 && Blk(recs[k].at, bs) == Blk(recs[k].at + recs[k].len - 1, bs)
  }

  ghost predicate AllHold(d: seq<byte>, recs: seq<Rec>) {
    forall k :: 0 <= k < |recs| ==> Holds(d, recs[k])
  }

  // ----- reading -----

  /** Reads the record at a position, if a whole one is there. */
  predicate HasRecord(d: seq<byte>, at: nat) {
    at + 8 <= |d|
    && var len := FromLe16(d[at + 4..at + 6]);
       8 + d[at + 6] <= len && at + len <= |d|
  }

  function RecordAt(d: seq<byte>, at: nat): (r: Rec)
    requires HasRecord(d, at)
  {
    var n: nat := d[at + 6];
    Rec(at, FromLe16(d[at + 4..at + 6]), FromLe32(d[at..at + 4]), d[at + 7], d[at + 8..at + 8 + n])
  }

  /** All records along the chain of lengths. */
  function ReadDir(d: seq<byte>, at: nat): seq<Rec>
    decreases |d| - at
  {
    if HasRecord(d, at) then [RecordAt(d, at)] + ReadDir(d, at + RecordAt(d, at).len) else []
  }

  lemma {:induction false} EncodeFields(r: Rec)
    requires Encodable(r)
    ensures var s := Encode(r);
            && FromLe32(s[0..4]) == r.inode && FromLe16(s[4..6]) == r.len
            && s[6] == |r.name| && s[7] == r.kind && s[8..] == r.name
  {
    var s := Encode(r);
    assert s[0..4] == Le32(r.inode) && s[4..6] == Le16(r.len);
    Le32RoundTrip(r.inode);
    Le16RoundTrip(r.len);
    hide Le32, Le16, FromLe32, FromLe16;
  }

  lemma {:induction false} SubSlice(d: seq<byte>, at: nat, n: nat, s: seq<byte>)
    requires at + n <= |d| && d[at..at + n] == s && 8 <= n
    ensures d[at..at + 4] == s[0..4] && d[at + 4..at + 6] == s[4..6] && d[at + 6] == s[6] && d[at + 7] == s[7]
    ensures d[at + 8..at + n] == s[8..]
  {
    SliceOfSlice(d, at, n, 0, 4);
    SliceOfSlice(d, at, n, 4, 6);
    SliceOfSlice(d, at, n, 8, n);
    assert s[8..n] == s[8..];
  }

  lemma {:induction false} RecordRead(d: seq<byte>, r: Rec)
    requires Holds(d, r) && r.at + r.len <= |d|
    ensures HasRecord(d, r.at) && RecordAt(d, r.at) == r
  {
    EncodeFields(r);
    SubSlice(d, r.at, 8 + |r.name|, Encode(r));
    hide Encode, FromLe32, FromLe16;
  }

  lemma {:induction false} ReadStep(d: seq<byte>, r: Rec)
    requires Holds(d, r) && r.at + r.len <= |d|
    ensures ReadDir(d, r.at) == [r] + ReadDir(d, r.at + r.len)
  {
    RecordRead(d, r);
    hide Holds, RecordAt, HasRecord;
  }

  lemma {:induction false} ReadEnd(d: seq<byte>)
    ensures ReadDir(d, |d|) == []
  {}

  lemma HoldsAt(d: seq<byte>, recs: seq<Rec>, k: nat)
    requires AllHold(d, recs) && k < |recs|
    ensures Holds(d, recs[k])
  {}

  lemma {:induction false} ChainReads(d: seq<byte>, recs: seq<Rec>, k: nat)
    requires AllHold(d, recs) && Chain(recs, |d|) && k <= |recs| && recs != []
    ensures ReadDir(d, if k < |recs| then recs[k].at else |d|) == recs[k..]
    decreases |recs| - k
  {
    hide *;
    if k < |recs| {
      HoldsAt(d, recs, k);
      ChainReads(d, recs, k + 1);
      ChainInside(recs, |d|, k);
      ReadStep(d, recs[k]);
      assert recs[k..] == [recs[k]] + recs[k + 1..];
    } else {
      ReadEnd(d);
    }
  }

  lemma {:induction false} ChainInside(recs: seq<Rec>, end: nat, k: nat)
    requires Chain(recs, end) && k < |recs|
    ensures recs[k].at + recs[k].len <= end
    ensures recs[k].at + recs[k].len == if k + 1 < |recs| then recs[k + 1].at else end
    decreases |recs| - k
  {
    if k + 1 < |recs| {
      ChainInside(recs, end, k + 1);
    }
  }

  /** Reading along the lengths gives back every record. */
  lemma {:induction false} DirectoryReads(d: seq<byte>, recs: seq<Rec>)
    requires AllHold(d, recs) && Chain(recs, |d|) && recs != []
    ensures ReadDir(d, 0) == recs
  {
    ChainReads(d, recs, 0);
    assert recs[0..] == recs;
    hide AllHold, ReadDir;
  }

  // ----- records at block starts -----

  /** In a chain that crosses no block boundary a record starts at every block start. */
  lemma {:induction false} StartsEveryBlock(recs: seq<Rec>, end: nat, bs: nat, b: nat) returns (k: nat)
    requires bs > 0 && Chain(recs, end) && InBlocks(recs, bs) && Bytes(b, bs) < end
    ensures k < |recs| && recs[k].at == Bytes(b, bs)
  {
    k := Covering(recs, end, Bytes(b, bs));
    var r := recs[k];
    assert Blk(r.at, bs) == Blk(r.at + r.len - 1, bs);
    SameBlock(r.at, r.at + r.len - 1, b, bs);
  }

  function Bytes(b: nat, bs: nat): nat {
    MulNonNegative(b, bs);
    b * bs
  }

  lemma {:induction false} SameBlock(p: nat, q: nat, b: nat, bs: nat)
    requires bs > 0 && Blk(p, bs) == Blk(q, bs) && p <= Bytes(b, bs) <= q
    ensures p == Bytes(b, bs)
  {
    Position(p, bs);
    Position(q, bs);
    var x := Blk(p, bs);
    MulGap(x, b, bs);
    MulGap(b, x, bs);
    hide Blk, Rem;
  }

  lemma {:induction false} Covering(recs: seq<Rec>, end: nat, x: nat) returns (k: nat)
    requires Chain(recs, end) && x < end
    ensures k < |recs| && recs[k].at <= x < recs[k].at + recs[k].len
  {
    k := CoveringFrom(recs, end, x, 0);
  }

  lemma {:induction false} CoveringFrom(recs: seq<Rec>, end: nat, x: nat, i: nat) returns (k: nat)
    requires Chain(recs, end) && x < end && i < |recs| && recs[i].at <= x
    ensures k < |recs| && recs[k].at <= x < recs[k].at + recs[k].len
    decreases |recs| - i
  {
    ChainInside(recs, end, i);
    if x < recs[i].at + recs[i].len {
      k := i;
    } else {
      k := CoveringFrom(recs, end, x, i + 1);
    }
  }

  // ----- writing -----

  function Patch(d: seq<byte>, at: nat, s: seq<byte>): (r: seq<byte>)
    requires at + |s| <= |d|
    ensures |r| == |d|
  {
    d[..at] + s + d[at + |s|..]
  }

  lemma {:induction false} PatchedHere(d: seq<byte>, at: nat, s: seq<byte>)
    requires at + |s| <= |d|
    ensures Patch(d, at, s)[at..at + |s|] == s
  {}

  lemma {:induction false} PatchedElsewhere(d: seq<byte>, at: nat, s: seq<byte>, i: nat, j: nat)
    requires at + |s| <= |d| && i <= j <= |d| && (j <= at || at + |s| <= i)
    ensures Patch(d, at, s)[i..j] == d[i..j]
  {
    var a, b := Patch(d, at, s)[i..j], d[i..j];
    forall k | 0 <= k < |b|
      ensures a[k] == b[k]
    {}
  }

  method Write(data: array<byte>, at: nat, s: seq<byte>)
    requires at + |s| <= data.Length
    modifies data
    ensures data[..] == Patch(old(data[..]), at, s)
  {
    forall k | 0 <= k < |s| {
      data[at + k] := s[k];
    }
  }

  lemma {:induction false} HoldsElsewhere(d: seq<byte>, at: nat, s: seq<byte>, r: Rec)
    requires at + |s| <= |d| && Holds(d, r) && (r.at + 8 + |r.name| <= at || at + |s| <= r.at)
    ensures Holds(Patch(d, at, s), r)
  {
    PatchedElsewhere(d, at, s, r.at, r.at + 8 + |r.name|);
    hide Patch, Encode, Encodable;
  }

  /** Rewriting the length field. */
  lemma {:induction false} HoldsLonger(d: seq<byte>, r: Rec, len: nat)
    requires Holds(d, r) && r.len <= len < 0x1_0000
    ensures r.at + 6 <= |d| && Holds(Patch(d, r.at + 4, Le16(len)), r.(len := len))
  {
    var n := 8 + |r.name|;
    var e, f := Patch(d, r.at + 4, Le16(len))[r.at..r.at + n], Encode(r.(len := len));
    var g := Encode(r);
    assert d[r.at..r.at + n] == g;
    LengthField(r, len);
    hide Encode, Le16, Encodable;
    forall k | 0 <= k < n
      ensures e[k] == f[k]
    {
      assert g[k] == d[r.at + k];
    }
  }

  lemma {:induction false} LengthField(r: Rec, len: nat)
    requires Encodable(r) && r.len <= len < 0x1_0000
    ensures Encodable(r.(len := len))
    ensures var f, g := Encode(r.(len := len)), Encode(r);
            f[4] == Le16(len)[0] && f[5] == Le16(len)[1] && forall k :: 0 <= k < |g| && k != 4 && k != 5 ==> f[k] == g[k]
  {
    hide Le32, Le16;
  }

  // ----- add_dentry -----

  /** The records written so far: a chain of whole records up to end. */
  ghost predicate Placed(d: seq<byte>, recs: seq<Rec>, end: nat, bs: nat)
    requires bs > 0
  {
    AllHold(d, recs) && Chain(recs, end) && InBlocks(recs, bs) && end <= |d|
  }

  /** The chain with its last record padded up to start. */
  function Extend(recs: seq<Rec>, start: nat): (r: seq<Rec>)
    ensures |r| == |recs|
  {
    if recs == [] || start < recs[|recs| - 1].at then recs
    else recs[|recs| - 1 := recs[|recs| - 1].(len := start - recs[|recs| - 1].at)]
  }

  lemma {:induction false} SameBlockBefore(p: nat, bs: nat)
    requires BlockSize(bs) && Rem(p, bs) > 0
    ensures Blk(p - 1, bs) == Blk(p, bs)
  {
    Position(p, bs);
    BlockOf(Blk(p, bs), Rem(p, bs) - 1, 1, bs);
    hide Blk, Rem;
  }

  lemma {:induction false} WithinOneBlock(p: nat, q: nat, bs: nat)
    requires BlockSize(bs) && p < q && Blk(p, bs) == Blk(q - 1, bs)
    ensures q - p <= bs
  {
    Position(p, bs);
    Position(q - 1, bs);
    hide Blk, Rem;
  }

  /** The padded last record still lies in its block. */
  lemma {:induction false} PaddedLast(recs: seq<Rec>, end: nat, l: nat, bs: nat)
    requires BlockSize(bs) && 8 <= l <= 264 && Chain(recs, end) && InBlocks(recs, bs) && recs != [] && Rem(end, bs) > 0
    ensures var start, last := PlaceStart(end, l, bs), recs[|recs| - 1];
            && last.at < last.at + last.len == end <= start && start - last.at < 0x1_0000
            && Blk(last.at, bs) == Blk(start - 1, bs) && last.len <= start - last.at
  {
    var start, last := PlaceStart(end, l, bs), recs[|recs| - 1];
    PlaceFacts(end, l, bs);
    SameBlockBefore(end, bs);
    assert Blk(last.at, bs) == Blk(last.at + last.len - 1, bs) && last.len > 0;
    hide Blk, Rem, PlaceStart;
    WithinOneBlock(last.at, start, bs);
  }

  lemma {:induction false} ExtendedChain(recs: seq<Rec>, end: nat, start: nat, bs: nat)
    requires bs > 0 && Chain(recs, end) && InBlocks(recs, bs) && recs != [] && end <= start
    requires recs[|recs| - 1].at < start && Blk(recs[|recs| - 1].at, bs) == Blk(start - 1, bs)
    ensures Chain(Extend(recs, start), start) && InBlocks(Extend(recs, start), bs)
  {
    hide Blk;
  }

  lemma {:induction false} ExtendedHolds(d: seq<byte>, recs: seq<Rec>, end: nat, start: nat)
    requires AllHold(d, recs) && Chain(recs, end) && recs != []
    requires var last := recs[|recs| - 1]; last.at + last.len <= start && start - last.at < 0x1_0000
    ensures var last := recs[|recs| - 1];
            last.at + 6 <= |d| && AllHold(Patch(d, last.at + 4, Le16(start - last.at)), Extend(recs, start))
  {
    var n := |recs| - 1;
    var last, len := recs[n], start - recs[n].at;
    var longer := Extend(recs, start);
    hide AllHold, Holds, Chain, Patch, Le16;
    HoldsAt(d, recs, n);
    HoldsLonger(d, last, len);
    forall k | 0 <= k < |longer|
      ensures Holds(Patch(d, last.at + 4, Le16(len)), longer[k])
    {
      if k < n {
        HeldRecord(d, recs, end, k);
        ChainOrder(recs, end, k, n);
        HoldsElsewhere(d, last.at + 4, Le16(len), recs[k]);
      }
    }
    AllHoldIs(Patch(d, last.at + 4, Le16(len)), longer);
  }

  lemma AllHoldIs(d: seq<byte>, recs: seq<Rec>)
    requires forall k :: 0 <= k < |recs| ==> Holds(d, recs[k])
    ensures AllHold(d, recs)
  {}

  lemma HeldRecord(d: seq<byte>, recs: seq<Rec>, end: nat, k: nat)
    requires AllHold(d, recs) && k < |recs|
    ensures Holds(d, recs[k]) && 8 + |recs[k].name| <= recs[k].len
  {
    assert Holds(d, recs[k]);
  }

  lemma {:induction false} ChainOrder(recs: seq<Rec>, end: nat, k: nat, n: nat)
    requires Chain(recs, end) && k < n < |recs|
    ensures recs[k].at + recs[k].len <= recs[n].at
    decreases n - k
  {
    ChainInside(recs, end, k);
    if k + 1 < n {
      ChainOrder(recs, end, k + 1, n);
    }
  }

  /** A record behind the chain. */
  lemma {:induction false} AppendedPlaced(d: seq<byte>, recs: seq<Rec>, r: Rec, bs: nat)
    requires bs > 0 && Placed(d, recs, r.at, bs) && Encodable(r) && r.at + r.len <= |d|
    requires Blk(r.at, bs) == Blk(r.at + r.len - 1, bs)
    ensures Placed(Patch(d, r.at, Encode(r)), recs + [r], r.at + r.len, bs)
  {
    var d', all := Patch(d, r.at, Encode(r)), recs + [r];
    PatchedHere(d, r.at, Encode(r));
    hide Patch, Encode, Blk;
    forall k | 0 <= k < |all|
      ensures Holds(d', all[k])
    {
      if k < |recs| {
        HoldsAt(d, recs, k);
        ChainInside(recs, r.at, k);
        HoldsElsewhere(d, r.at, Encode(r), recs[k]);
      }
    }
    hide Holds;
  }

  /** prev->rec_len grows so that the next record begins a block. */
  method PadPrevious(data: array<byte>, prev: nat, offset: nat, start: nat, ghost recs: seq<Rec>, bs: nat, l: nat)
    requires BlockSize(bs) && 8 <= l <= 264 && Placed(data[..], recs, offset, bs) && recs != [] && Rem(offset, bs) > 0
    requires prev == recs[|recs| - 1].at && start == PlaceStart(offset, l, bs)
    modifies data
    ensures AllHold(data[..], Extend(recs, start)) && Chain(Extend(recs, start), start) && InBlocks(Extend(recs, start), bs)
  {
    ghost var last, before := recs[|recs| - 1], data[..];
    PaddedLast(recs, offset, l, bs);
    ExtendedChain(recs, offset, start, bs);
    ExtendedHolds(before, recs, offset, start);
    assert Holds(before, last);
    LengthFieldAt(before, last);
    hide Placed, AllHold, Chain, InBlocks, PlaceStart, Extend, Patch, Le16, FromLe16, Holds, Rem, Blk;
    var recLen: nat := FromLe16([data[prev + 4], data[prev + 5]]);
    Write(data, prev + 4, Le16(recLen + (start - offset)));
  }

  lemma {:induction false} LengthFieldAt(d: seq<byte>, r: Rec)
    requires Holds(d, r)
    ensures r.at + 6 <= |d| && FromLe16([d[r.at + 4], d[r.at + 5]]) == r.len
  {
    var s := Encode(r);
    EncodeFields(r);
    SubSlice(d, r.at, 8 + |r.name|, s);
    assert [d[r.at + 4], d[r.at + 5]] == d[r.at + 4..r.at + 6];
    hide Encode, FromLe16;
  }

  lemma {:induction false} ExtendNothing(recs: seq<Rec>, end: nat)
    requires Chain(recs, end)
    ensures Extend(recs, end) == recs
  {}

  lemma {:induction false} PlaceAsComputed(offset: nat, l: nat, bs: nat)
    requires bs > 0
    ensures PlaceStart(offset, l, bs) == if offset / bs != (offset + l) / bs then (offset + l) / bs * bs else offset
  {}

  lemma {:induction false} FirstFits(l: nat, bs: nat)
    requires BlockSize(bs) && 8 <= l <= 264
    ensures PlaceStart(0, l, bs) == 0
  {
    ModUnique(0, bs, 0, 0);
    ModUnique(l, bs, 0, l);
  }

  /** Where the next record goes; when that is the next block, the previous record is padded up to it. */
  method NextStart(data: array<byte>, offset: nat, prev: nat, recLen: nat, bs: nat, ghost recs: seq<Rec>) returns (at: nat)
    requires BlockSize(bs) && 8 <= recLen <= 264 && Placed(data[..], recs, offset, bs)
    requires recs == [] ==> offset == 0
    requires recs != [] ==> prev == recs[|recs| - 1].at && Rem(offset, bs) > 0
    modifies data
    ensures at == PlaceStart(offset, recLen, bs)
    ensures AllHold(data[..], Extend(recs, at)) && Chain(Extend(recs, at), at) && InBlocks(Extend(recs, at), bs)
  {
    PlaceAsComputed(offset, recLen, bs);
    FirstFits(recLen, bs);
    ExtendNothing(recs, offset);
    hide PlaceStart, AllHold, Chain, InBlocks, Extend, Rem, Blk;
    var startBlock, endBlock := offset / bs, (offset + recLen) / bs;
    if startBlock == endBlock {
      return offset;
    }
    at := endBlock * bs;
    PadPrevious(data, prev, offset, at, recs, bs, recLen);
  }

  method PutRecord(data: array<byte>, r: Rec, ghost recs: seq<Rec>, bs: nat)
    requires bs > 0 && AllHold(data[..], recs) && Chain(recs, r.at) && InBlocks(recs, bs)
    requires Encodable(r) && r.at + r.len <= data.Length && Blk(r.at, bs) == Blk(r.at + r.len - 1, bs)
    modifies data
    ensures Placed(data[..], recs + [r], r.at + r.len, bs)
  {
    assert Placed(data[..], recs, r.at, bs);
    hide Placed, AllHold, Chain, InBlocks, Blk, Encode, Patch;
    AppendedPlaced(data[..], recs, r, bs);
    Write(data, r.at, Encode(r));
  }

  /** add_dentry; overrun reports a record that would end behind the buffer. */
  method AddDentry(data: array<byte>, offset: nat, prev: nat, inode: u32, name: seq<byte>, kind: byte, bs: nat,
                   ghost recs: seq<Rec>) returns (overrun: bool, newOffset: nat, at: nat, ghost newRecs: seq<Rec>)
    requires BlockSize(bs) && |name| < 0x100 && Placed(data[..], recs, offset, bs)
    requires recs == [] ==> offset == 0
    requires recs != [] ==> prev == recs[|recs| - 1].at && Rem(offset, bs) > 0
    modifies data
    ensures at == PlaceStart(offset, RecordLen(|name|), bs) && newOffset == at + RecordLen(|name|)
    ensures (overrun <==> newOffset > data.Length) && Rem(newOffset, bs) > 0
    ensures newRecs == Extend(recs, at) + [Rec(at, RecordLen(|name|), inode, kind, name)]
    ensures !overrun ==> Placed(data[..], newRecs, newOffset, bs)
  {
    hide *;
    var recLen := RecordLen(|name|);
    RecordEncodable(inode, name, kind);
    PlaceFacts(offset, recLen, bs);
    RemBelow(offset, bs);
    at := NextStart(data, offset, prev, recLen, bs, recs);
    newOffset := at + recLen;
    newRecs := Extend(recs, at) + [Rec(at, recLen, inode, kind, name)];
    overrun := newOffset > data.Length;
    if !overrun {
      PutRecord(data, Rec(at, recLen, inode, kind, name), Extend(recs, at), bs);
    }
  }

  lemma RecordEncodable(inode: u32, name: seq<byte>, kind: byte)
    requires |name| < 0x100
    ensures 8 <= RecordLen(|name|) <= 264
    ensures forall at: nat :: Encodable(Rec(at, RecordLen(|name|), inode, kind, name))
  {
    RecordLenBounds(|name|);
    hide RecordLen;
  }

  // ----- make_directory -----

  const FT_DIR: byte := 2
  const DOT: seq<byte> := [46]
  const DOT_DOT: seq<byte> := [46, 46]

  function EntryLens(entries: seq<Entry>): (lens: seq<nat>)
    ensures |lens| == |entries|
  {
    seq(|entries|, i requires 0 <= i < |entries| => RecordLen(|entries[i].name|))
  }

  ghost predicate ShortNames(entries: seq<Entry>) {
    forall i :: 0 <= i < |entries| ==> |entries[i].name| < 0x100
  }

  lemma {:induction false} EntryLensAre(entries: seq<Entry>)
    requires ShortNames(entries)
    ensures RecordLens(EntryLens(entries))
  {
    forall i | 0 <= i < |entries|
      ensures EntryLens(entries)[i] % 4 == 0 && 8 <= EntryLens(entries)[i] <= 264
    {
      RecordLenBounds(|entries[i].name|);
    }
    hide RecordLen;
  }

  /** dentry_size */
  method DentrySize(entries: seq<Entry>, bs: nat) returns (len: nat)
    requires BlockSize(bs) && ShortNames(entries)
    ensures len == SizeEnd(EntryLens(entries), |entries|, bs)
  {
    hide RecordLen, Rem;
    ghost var lens := EntryLens(entries);
    len := 24;
    for i := 0 to |entries|
      invariant len == SizeEnd(lens, i, bs)
    {
      var dentryLen := RecordLen(|entries[i].name|);
      RemBelow(len, bs);
      if Rem(len, bs) + dentryLen > bs {
        len := len + (bs - Rem(len, bs));
      }
      len := len + dentryLen;
    }
  }

  predicate Says(r: Rec, inode: u32, kind: byte, name: seq<byte>) {
    r.inode == inode && r.kind == kind && r.name == name
  }

  /** ".", ".." and the first k entries, in this order. */
  ghost predicate Lists(recs: seq<Rec>, self: u32, parent: u32, entries: seq<Entry>, k: nat) {
    && |recs| == k + 2 && k <= |entries|
    && Says(recs[0], self, FT_DIR, DOT) && Says(recs[1], parent, FT_DIR, DOT_DOT)
    && forall i :: 0 <= i < k ==> Says(recs[i + 2], 0, entries[i].kind, entries[i].name)
  }

  lemma {:induction false} ListsMore(recs: seq<Rec>, self: u32, parent: u32, entries: seq<Entry>, k: nat, start: nat,
                                     at: nat, len: nat)
    requires Lists(recs, self, parent, entries, k) && k < |entries|
    ensures Lists(Extend(recs, start) + [Rec(at, len, 0, entries[k].kind, entries[k].name)], self, parent, entries, k + 1)
  {}

  /** The directory after "." and "..", and k entries. */
  ghost predicate Filling(d: seq<byte>, recs: seq<Rec>, offset: nat, prev: nat, bs: nat, self: u32, parent: u32,
                          entries: seq<Entry>, k: nat)
    requires bs > 0
  {
    && Placed(d, recs, offset, bs) && Lists(recs, self, parent, entries, k)
    && prev == recs[|recs| - 1].at && Rem(offset, bs) > 0 && offset == PlaceEnd(EntryLens(entries), k, bs)
  }

  /** Aborted: a record was stored behind the buffer, all of it, and then the check stopped the program. */
  datatype DirOutcome = Made | Aborted | ClosingOverrun

  /** How make_directory ends, by the room that the placed entries leave in the buffer. */
  function OutcomeFor(lens: seq<nat>, bs: nat): DirOutcome
    requires bs > 0
  {
    var left := DirLen(lens, bs) - PlaceEnd(lens, |lens|, bs);
    if left < 0 then Aborted else if left == 4 then ClosingOverrun else Made
  }

  method StartDirectory(data: array<byte>, bs: nat, self: u32, parent: u32, entries: seq<Entry>)
    returns (offset: nat, prev: nat, ghost recs: seq<Rec>)
    requires BlockSize(bs) && data.Length >= 24
    modifies data
    ensures Filling(data[..], recs, offset, prev, bs, self, parent, entries, 0)
  {
    var overrun, first;
    StartOffsets(bs);
    hide PlaceStart, Rem;
    NothingPlaced(data[..], bs);
    overrun, offset, first, recs := AddDentry(data, 0, 0, self, [46], 2, bs, []);
    overrun, offset, prev, recs := AddDentry(data, offset, first, parent, [46, 46], 2, bs, recs);
  }

  lemma NothingPlaced(d: seq<byte>, bs: nat)
    requires bs > 0
    ensures Placed(d, [], 0, bs) && forall start :: Extend([], start) == []
  {}

  lemma {:induction false} StartOffsets(bs: nat)
    requires BlockSize(bs)
    ensures RecordLen(1) == RecordLen(2) == 12 && PlaceStart(0, 12, bs) == 0 && PlaceStart(12, 12, bs) == 12
  {
    ModUnique(0, bs, 0, 0);
    ModUnique(12, bs, 0, 12);
    ModUnique(24, bs, 0, 24);
  }

  /** One entry. */
  method AddEntry(data: array<byte>, offset: nat, prev: nat, bs: nat, self: u32, parent: u32, entries: seq<Entry>, k: nat,
                  ghost recs: seq<Rec>) returns (overrun: bool, newOffset: nat, at: nat, ghost newRecs: seq<Rec>)
    requires BlockSize(bs) && ShortNames(entries) && k < |entries|
    requires Filling(data[..], recs, offset, prev, bs, self, parent, entries, k)
    modifies data
    ensures newOffset == PlaceEnd(EntryLens(entries), k + 1, bs) && (overrun <==> newOffset > data.Length)
    ensures !overrun ==> Filling(data[..], newRecs, newOffset, at, bs, self, parent, entries, k + 1)
  {
    hide PlaceStart, RecordLen, Placed, Rem, Says;
    assert EntryLens(entries)[k] == RecordLen(|entries[k].name|);
    overrun, newOffset, at, newRecs := AddDentry(data, offset, prev, 0, entries[k].name, entries[k].kind, bs, recs);
    ListsMore(recs, self, parent, entries, k, at, at, RecordLen(|entries[k].name|));
  }

  /** The closing record: the rest of the buffer, with no name. */
  method Close(data: array<byte>, offset: nat, bs: nat, ghost recs: seq<Rec>)
    requires BlockSize(bs) && Placed(data[..], recs, offset, bs) && offset + 8 <= data.Length < offset + bs
    requires Rem(offset, bs) > 0 && Rem(data.Length, bs) == 0
    modifies data
    ensures Placed(data[..], recs + [Rec(offset, data.Length - offset, 0, 0, [])], data.Length, bs)
  {
    ClosingInBlock(offset, data.Length, bs);
    hide AllHold, Chain, InBlocks, Blk, Rem;
    PutRecord(data, Rec(offset, data.Length - offset, 0, 0, []), recs, bs);
  }

  lemma {:induction false} ClosingInBlock(p: nat, q: nat, bs: nat)
    requires BlockSize(bs) && p < q < p + bs && Rem(q, bs) == 0
    ensures Blk(p, bs) == Blk(q - 1, bs) && q - p < 0x1_0000
  {
    Position(p, bs);
    Position(q, bs);
    var a, b := Blk(p, bs), Blk(q, bs);
    hide Blk, Rem;
    MulGap(a + 1, b, bs);
    MulGap(b, a, bs);
    assert (a + 1) * bs == a * bs + bs;
    assert b == a + 1 by {
      MulGap(b, a + 1, bs);
    }
    LastOfBlock(q, b, bs);
  }

  lemma {:induction false} LastOfBlock(q: nat, b: nat, bs: nat)
    requires BlockSize(bs) && q == b * bs && b > 0
    ensures Blk(q - 1, bs) == b - 1
  {
    assert (b - 1) * bs + (bs - 1) == q - 1;
    BlockOf(b - 1, bs - 1, 0, bs);
  }

  /** The whole directory: "." and "..", the entries in order, and the closing record, tiling the buffer. */
  ghost predicate WholeDirectory(d: seq<byte>, bs: nat, self: u32, parent: u32, entries: seq<Entry>)
    requires bs > 0
  {
    var recs := ReadDir(d, 0);
    && |recs| == |entries| + 3
    && Lists(recs[..|entries| + 2], self, parent, entries, |entries|)
    && Says(recs[|entries| + 2], 0, 0, [])
    && Chain(recs, |d|) && InBlocks(recs, bs)
  }

  lemma {:induction false} WholeIs(d: seq<byte>, recs: seq<Rec>, closing: Rec, bs: nat, self: u32, parent: u32,
                                   entries: seq<Entry>)
    requires bs > 0 && Placed(d, recs + [closing], |d|, bs) && Lists(recs, self, parent, entries, |entries|)
    requires Says(closing, 0, 0, [])
    ensures WholeDirectory(d, bs, self, parent, entries)
  {
    DirectoryReads(d, recs + [closing]);
    assert (recs + [closing])[..|entries| + 2] == recs;
    hide AllHold, ReadDir, Chain, InBlocks;
  }

  lemma {:induction false} DirectoryRoom(lens: seq<nat>, bs: nat)
    requires BlockSize(bs) && RecordLens(lens)
    ensures var len, end := DirLen(lens, bs), PlaceEnd(lens, |lens|, bs);
            && 24 <= len && Rem(len, bs) == 0 && end != len
            && (end < len ==> len - end < bs && (len - end < 8 <==> len - end == 4))
  {
    DirLenFacts(lens, bs);
    SizeAtLeast(lens, |lens|, bs);
    LeftOver(lens, bs);
    hide *;
  }

  lemma {:induction false} SizeAtLeast(lens: seq<nat>, k: nat, bs: nat)
    requires BlockSize(bs) && k <= |lens|
    ensures 24 <= SizeEnd(lens, k, bs)
  {
    if k > 0 {
      SizeAtLeast(lens, k - 1, bs);
      RemBelow(SizeEnd(lens, k - 1, bs), bs);
    }
    hide Rem;
  }

  method DirBytes(size: nat, bs: nat) returns (len: nat)
    requires BlockSize(bs)
    ensures len == Bytes(DivRoundUp(size, bs), bs)
  {
    var blocks := DivRoundUp(size, bs);
    MulNonNegative(blocks, bs);
    len := blocks * bs;
  }

  lemma DirLenIs(lens: seq<nat>, bs: nat)
    requires BlockSize(bs)
    ensures DirLen(lens, bs) == Bytes(DivRoundUp(SizeEnd(lens, |lens|, bs), bs), bs)
  {}

  lemma FillingAt(d: seq<byte>, recs: seq<Rec>, offset: nat, prev: nat, bs: nat, self: u32, parent: u32,
                  entries: seq<Entry>, k: nat)
    requires bs > 0 && Filling(d, recs, offset, prev, bs, self, parent, entries, k)
    ensures Placed(d, recs, offset, bs) && Lists(recs, self, parent, entries, k) && offset <= |d| && Rem(offset, bs) > 0
    ensures offset == PlaceEnd(EntryLens(entries), k, bs)
  {}

  lemma {:induction false} EndsGrow(lens: seq<nat>, k: nat, bs: nat)
    requires BlockSize(bs) && RecordLens(lens) && k <= |lens|
    ensures PlaceEnd(lens, k, bs) <= PlaceEnd(lens, |lens|, bs)
    decreases |lens| - k
  {
    hide *;
    if k < |lens| {
      PlaceEndFacts(lens, k + 1, bs);
      EndsGrow(lens, k + 1, bs);
    }
  }

  lemma NothingSays(r: Rec)
    requires r.inode == 0 && r.kind == 0 && r.name == []
    ensures Says(r, 0, 0, [])
  {}

  lemma OutcomeIs(lens: seq<nat>, bs: nat)
    requires bs > 0
    ensures OutcomeFor(lens, bs)
         == if PlaceEnd(lens, |lens|, bs) > DirLen(lens, bs) then Aborted
            else if DirLen(lens, bs) - PlaceEnd(lens, |lens|, bs) == 4 then ClosingOverrun else Made
  {
    hide DirLen, PlaceEnd;
  }

  /** make_directory, from the packing on: aborts exactly when the entries as placed end behind the buffer that was
      sized for them, and otherwise leaves a directory that reads back in order. */
  method MakeDirectory(bs: nat, self: u32, parent: u32, entries: seq<Entry>) returns (result: DirOutcome, data: array<byte>)
    requires BlockSize(bs) && ShortNames(entries)
    ensures data.Length == DirLen(EntryLens(entries), bs) && result == OutcomeFor(EntryLens(entries), bs)
    ensures result == Made ==> WholeDirectory(data[..], bs, self, parent, entries)
  {
    ghost var lens := EntryLens(entries);
    EntryLensAre(entries);
    DirectoryRoom(lens, bs);
    OutcomeIs(lens, bs);
    hide *;
    var size := DentrySize(entries, bs);
    var len := DirBytes(size, bs);
    DirLenIs(lens, bs);
    data := new byte[len](_ => 0);
    var offset: nat, prev: nat;
    ghost var recs;
    offset, prev, recs := StartDirectory(data, bs, self, parent, entries);
    FillingAt(data[..], recs, offset, prev, bs, self, parent, entries, 0);
    for i := 0 to |entries|
      invariant Filling(data[..], recs, offset, prev, bs, self, parent, entries, i)
      invariant offset <= data.Length
    {
      var overrun;
      overrun, offset, prev, recs := AddEntry(data, offset, prev, bs, self, parent, entries, i, recs);
      if overrun {
        EndsGrow(lens, i + 1, bs);
        return Aborted, data;
      }
    }
    FillingAt(data[..], recs, offset, prev, bs, self, parent, entries, |entries|);
    if data.Length - offset < 8 {
      return ClosingOverrun, data;
    }
    Close(data, offset, bs, recs);
    NothingSays(Rec(offset, data.Length - offset, 0, 0, []));
    WholeIs(data[..], recs, Rec(offset, data.Length - offset, 0, 0, []), bs, self, parent, entries);
    result := Made;
  }
}
