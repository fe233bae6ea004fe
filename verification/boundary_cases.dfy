/** Where the code misses its stated intent: exact conditions that need several modules, and an input for each miss. */
module BoundaryCases {
  import opened Words
  import opened AllocatorSpec
  import opened AllocatorRuns
  import R = Regions
  import S = ExtentsSpec
  import E = Extents
  import T = ExtentTree
  import H = Sha1Context
  import W = ImageWrites
  import M = Simg2Img
  import P = SparseFormat
  import D = Directory
  import L = DirectoryLayout

  // ----- advance_list_ptr -----

  /** With the region it reaches not stored, the position is the intended one exactly while the advance stays inside the
      region it started in. */
  lemma {:induction false} AdvanceStaysIff(runs: seq<Run>, k: nat, partial: nat, blocks: nat)
    requires S.AllPositive(runs) && k < |runs| && partial < runs[k].len
    ensures R.Advance(runs, k, partial, blocks).0 == partial + blocks <==> blocks == 0 || partial + blocks < runs[k].len
  {
    if blocks > 0 && partial + blocks >= runs[k].len {
      AdvanceFallsShort(runs, k + 1, blocks - (runs[k].len - partial));
    }
  }

  lemma {:induction false} AdvanceFallsShort(runs: seq<Run>, k: nat, blocks: nat)
    requires k <= |runs|
    ensures R.Advance(runs, k, 0, blocks).0 <= blocks
    decreases |runs| - k
  {
    if k < |runs| && blocks > 0 && runs[k].len <= blocks {
      AdvanceFallsShort(runs, k + 1, blocks - runs[k].len);
    }
  }

  // ----- reserve_oob_blocks -----

  lemma WalkFurther(runs: seq<Run>, k: nat, len: nat)
    requires k < |runs| && runs[k].len > 0
    ensures len < runs[k].len ==> R.Walk(runs, k, len) == (k, len)
    ensures len == runs[k].len && (k + 1 < |runs| ==> runs[k + 1].len > 0) ==> R.Walk(runs, k, len) == (k + 1, 0)
    ensures len > runs[k].len && k + 1 < |runs| ==> R.Walk(runs, k, len).0 > k + 1 || R.Walk(runs, k, len).1 > 0
    ensures len > runs[k].len && k + 1 == |runs| ==> R.Walk(runs, k, len).1 > 0
  {}

  lemma CutParts(runs: seq<Run>, k: nat, len: nat)
    requires k < |runs| && len <= runs[k].len
    ensures var cut := R.Cut(runs, k, len);
            && cut[k + 1] == R.Back(runs[k], len) && (k + 1 < |runs| ==> cut[k + 2] == runs[k + 1])
  {}

  /** A reservation inside a region meets a stale prev pointer exactly when it takes all that is left of the region, and
      another region follows. Then its blocks are lost from both lists (RegionList.ReserveStale). */
  lemma {:induction false} StaleIff(l: R.Lists, n: nat)
    requires S.AllPositive(l.runs) && l.at < |l.runs| && 0 < l.partial < l.runs[l.at].len
    ensures R.Stale(l, n) <==> n == l.runs[l.at].len - l.partial && l.at + 1 < |l.runs|
  {
    WalkFurther(l.runs, l.at, l.partial);
    CutParts(l.runs, l.at, l.partial);
    var cut := R.Cut(l.runs, l.at, l.partial);
    assert R.Split(l.runs, l.at, l.partial) == R.SplitResult(cut, l.at + 1, l.at);
    WalkFurther(cut, l.at + 1, n);
    hide R.Walk, R.Cut;
  }

  /** The first twelve blocks of a file in a first region of thirteen, and one block to set aside behind them. */
  lemma ThirteenthBlockLost()
    ensures R.Stale(R.Lists([Run(20, 13, 0), Run(100, 5, 1)], 0, 12, []), 1)
  {
    StaleIff(R.Lists([Run(20, 13, 0), Run(100, 5, 1)], 0, 12, []), 1);
    hide R.Stale;
  }

  // ----- reduce_allocation -----

  lemma {:induction false} FlattenFrom(runs: seq<Run>, k: nat)
    requires k <= |runs|
    ensures R.Flatten(runs, k) == R.Flatten(runs[k..], 0)
    decreases |runs| - k
  {
    if k < |runs| {
      FlattenFrom(runs, k + 1);
      FlattenFrom(runs[k..], 1);
      assert runs[k..][1..] == runs[k + 1..];
    } else {
      assert runs[k..] == [];
    }
  }

  lemma {:induction false} FlattenCons(r: Run, rest: seq<Run>)
    ensures R.Flatten([r] + rest, 0) == R.BlocksOf(r) + R.Flatten(rest, 0)
  {
    FlattenFrom([r] + rest, 1);
    assert ([r] + rest)[1..] == rest;
  }

  lemma {:induction false} FlattenFirst(runs: seq<Run>)
    requires runs != [] && S.AllPositive(runs)
    ensures |R.Flatten(runs, 0)| > 0 && R.Flatten(runs, 0)[0] == runs[0].block
  {
    assert runs[0].len > 0;
  }

  lemma BlocksShorter(r: Run, back: nat)
    requires back <= r.len
    ensures R.BlocksOf(r.(len := r.len - back)) == R.BlocksOf(r)[..r.len - back]
  {}

  /** What reduce_allocation leaves is the front of the allocation, as its description has it, exactly when there is one
      region or nothing is given back. */
  lemma {:induction false} ReduceTakesTheLastIff(gs: seq<Group>, runs: seq<Run>, back: nat)
    requires |runs| > 0 && AtBack(gs, runs[0]) && back < runs[0].len && S.AllPositive(runs) && AllDisjoint(runs)
    ensures Reduce(gs, runs, back).Next?
    ensures var all := R.Flatten(runs, 0);
            back <= |all| && (R.Flatten(Reduce(gs, runs, back).state.live, 0) == all[..|all| - back] <==> |runs| == 1 || back == 0)
  {
    var r, rest := runs[0], runs[1..];
    var s := r.(len := r.len - back);
    assert runs == [r] + rest && Reduce(gs, runs, back).state.live == [s] + rest;
    FlattenCons(r, rest);
    FlattenCons(s, rest);
    BlocksShorter(r, back);
    var all, left, tail := R.Flatten(runs, 0), R.Flatten([s] + rest, 0), R.Flatten(rest, 0);
    assert all == R.BlocksOf(r) + tail && left == R.BlocksOf(s) + tail;
    if |runs| == 1 {
      assert tail == [];
    } else if back > 0 {
      assert rest[0] == runs[1] && Disjoint(r, runs[1]) && runs[1].len > 0;
      assert S.AllPositive(rest) by {
        forall i | 0 <= i < |rest|
          ensures rest[i].len > 0
        {
          assert rest[i] == runs[i + 1];
        }
      }
      FlattenFirst(rest);
      assert left[s.len] == runs[1].block;
      if s.len < |all| - back {
        assert all[..|all| - back][s.len] == r.block + s.len;
      }
    }
  }

  // ----- the reader -----

  /** Only major version 1 is read: a lower one is rejected as a higher one is. */
  lemma OtherVersionsRejected(file: seq<byte>)
    requires |file| >= 28
    ensures M.ReadFile(file) == M.Rejected(M.BadMagic) <==> file[..4] != [0x3a, 0xff, 0x26, 0xed]
    ensures M.ReadFile(file) == M.Rejected(M.BadVersion) <==> file[..4] == [0x3a, 0xff, 0x26, 0xed] && file[4..6] != [1, 0]
  {
    var h := P.DecodeHeader(file[..P.HEADER_LEN]);
    FirstFields(file);
    if h.magic == P.MAGIC && h.major == 1 {
      NeverHeaderError(file, h, M.Reading(if h.fileHdrSz > P.HEADER_LEN then h.fileHdrSz else P.HEADER_LEN, [], 0, 0, 0),
                       h.totalChunks);
    }
    hide P.DecodeHeader, M.ReadChunks;
  }

  lemma FirstFields(file: seq<byte>)
    requires |file| >= 28
    ensures var h := P.DecodeHeader(file[..P.HEADER_LEN]);
            && (h.magic == P.MAGIC <==> file[..4] == [0x3a, 0xff, 0x26, 0xed])
            && (h.major == 1 <==> file[4..6] == [1, 0])
  {
    var head := file[..P.HEADER_LEN];
    assert head[..4] == file[..4] && head[4..6] == file[4..6];
    MagicBytes(file[..4]);
    OneBytes(file[4..6]);
    hide FromLe32, FromLe16;
  }

  lemma MagicBytes(s: seq<byte>)
    requires |s| == 4
    ensures FromLe32(s) == 0xed26ff3a <==> s == [0x3a, 0xff, 0x26, 0xed]
  {}

  lemma OneBytes(s: seq<byte>)
    requires |s| == 2
    ensures FromLe16(s) == 1 <==> s == [1, 0]
  {}

  ghost predicate HeaderError(s: M.Step) {
    s == M.Stop(M.Rejected(M.BadVersion)) || s == M.Stop(M.Rejected(M.BadMagic))
  }

  lemma ChunkNoHeaderError(file: seq<byte>, h: P.Header, r: M.Reading)
    ensures !HeaderError(M.ReadChunk(file, h, r))
  {
    hide P.DecodeChunkHeader, M.RawSizeAgrees, M.SkipEnds, M.Part, M.AddBlocks, M.BodyLen;
  }

  lemma ChunksStep(file: seq<byte>, h: P.Header, r: M.Reading, n: nat)
    ensures n == 0 ==> M.ReadChunks(file, h, r, n) == M.Next(r)
    ensures n > 0 ==>
              var step := M.ReadChunk(file, h, r);
              M.ReadChunks(file, h, r, n) == if step.Next? then M.ReadChunks(file, h, step.r, n - 1) else step
  {
    hide M.ReadChunk;
  }

  lemma {:induction false} NeverHeaderError(file: seq<byte>, h: P.Header, r: M.Reading, n: nat)
    ensures !HeaderError(M.ReadChunks(file, h, r, n))
    decreases n
  {
    hide *;
    ChunksStep(file, h, r, n);
    if n > 0 {
      ChunkNoHeaderError(file, h, r);
      var step := M.ReadChunk(file, h, r);
      if step.Next? {
        NeverHeaderError(file, h, step.r, n - 1);
      }
    } else {
      NextNoError(r);
    }
  }

  lemma NextNoError(r: M.Reading)
    ensures !HeaderError(M.Next(r))
  {}

  /** Of the chunk types only raw and skipped regions are read; a fill chunk (0xCAC2), which the format describes, stops the
      reader like any other. */
  lemma FillRejected(file: seq<byte>, h: P.Header, r: M.Reading, n: nat)
    requires n > 0 && r.pos + 12 <= |file| && file[r.pos..r.pos + 2] != [0xC1, 0xCA] && file[r.pos..r.pos + 2] != [0xC3, 0xCA]
    ensures M.ReadChunks(file, h, r, n) == M.Stop(M.Rejected(M.UnknownChunk))
  {
    var head := file[r.pos..r.pos + 12];
    assert head[..2] == file[r.pos..r.pos + 2];
    TypeBytes(head[..2]);
    assert P.DecodeChunkHeader(head).chunkType == FromLe16(head[..2]);
    assert P.CHUNK_HEADER_LEN == 12;
    hide P.DecodeChunkHeader, FromLe16;
  }

  lemma TypeBytes(s: seq<byte>)
    requires |s| == 2
    ensures FromLe16(s) == 0xCAC1 <==> s == [0xC1, 0xCA]
    ensures FromLe16(s) == 0xCAC3 <==> s == [0xC3, 0xCA]
  {}

  /** The seeks over a region end with the rest of a division by 2^31, counted from 1. */
  lemma {:induction false} LastSeekIs(n: nat)
    requires n > 0
    ensures M.LastSeek(n) == (n - 1) % 0x8000_0000 + 1
    decreases n
  {
    if n > 0x8000_0000 {
      LastSeekIs(n - 0x8000_0000);
      ModUnique(n - 1, 0x8000_0000, (n - 1 - 0x8000_0000) / 0x8000_0000 + 1, (n - 1 - 0x8000_0000) % 0x8000_0000);
    } else {
      ModUnique(n - 1, 0x8000_0000, 0, n - 1);
    }
  }

  /** The checksum loop over a region ends exactly when its step, the last seek but at most a block, divides the region. */
  lemma {:induction false} SkipEndsIff(n: nat, bs: nat)
    requires n > 0 && bs > 0
    ensures M.SkipEnds(n, bs) <==> Divides(Min((n - 1) % 0x8000_0000 + 1, bs), n)
  {
    LastSeekIs(n);
    hide M.LastSeek, Divides;
  }

  /** Blocks of seven bytes, and a region of 2^31 + 5: the step is five, and the counter steps over zero. */
  lemma SevenBytes(n: nat)
    requires n == 0x8000_0005
    ensures n == 306783379 * 7 && !M.SkipEnds(n, 7)
  {
    SkipEndsIff(n, 7);
    ModUnique(n - 1, 0x8000_0000, 1, 4);
    ModUnique(n, 5, 429496730, 3);
  }

  // ----- more regions than the extent block holds -----

  ghost predicate AboveZero(runs: seq<Run>) {
    forall i :: 0 <= i < |runs| ==> runs[i].block > 0
  }

  /** With block 0 never given out, the table is overrun exactly when the kept regions outnumber the entries of the extent
      block, and the regions are still fewer than a block has bytes; the check stops no other file. */
  lemma {:induction false} OverflowIff(gs: seq<Group>, blocks: nat, bs: nat)
    requires blocks < 0xFFFF_FFFF && AllocatorSpec.DoAllocate(gs, blocks + 1).Done?
    requires AboveZero(AllocatorSpec.DoAllocate(gs, blocks + 1).runs)
    ensures var runs := AllocatorSpec.DoAllocate(gs, blocks + 1).runs;
            && runs != []
            && var kept := if runs[0].len >= 2 then |runs| else 1;
               && (E.FileOutcome(gs, blocks, bs) == E.Overflow <==> 3 < |runs| < bs && T.MaxEntries(bs) < kept)
               && (E.FileOutcome(gs, blocks, bs) == E.TooManyRegions <==> 3 < |runs| && bs <= |runs|)
  {
    E.KeptFacts(gs, blocks);
    E.OutcomeIs(gs, blocks, bs);
    var o := AllocatorSpec.DoAllocate(gs, blocks + 1);
    hide AllocatorSpec.DoAllocate, E.KeptFor, S.Keep, E.FileOutcome, T.MaxEntries, Total, S.Prefix;
    assert o.runs[0].len > 0;
    if |o.runs| > 3 {
      S.KeepMany(o.groups, o.runs);
    } else {
      S.KeepFew(o.groups, o.runs);
    }
  }

  // ----- requests that fill groups -----

  /** The free blocks of groups j to k. */
  function FreeFrom(gs: seq<Group>, j: nat, k: nat): nat
    requires j <= k <= |gs|
    decreases k - j
  {
    if j == k then 0 else gs[j].free + FreeFrom(gs, j + 1, k)
  }

  /** All of them, as one region for each group. */
  function FrontsFrom(gs: seq<Group>, j: nat, k: nat): (runs: seq<Run>)
    requires j <= k <= |gs|
    ensures |runs| == k - j
    decreases k - j
  {
    if j == k then [] else [FrontRun(gs[j], gs[j].free, j)] + FrontsFrom(gs, j + 1, k)
  }

  /** The groups in front of j are used up, and those from j to k are untouched and have free blocks. */
  ghost predicate Spent(gs: seq<Group>, j: nat, k: nat)
    requires j <= k <= |gs|
  {
    && (forall i :: 0 <= i < j ==> gs[i].free == 0 && gs[i].used > 0)
    && (forall i :: j <= i < k ==> gs[i].free > 0 && gs[i].used == 0)
  }

  lemma {:induction false} SameFrom(gs: seq<Group>, hs: seq<Group>, j: nat, k: nat)
    requires j <= k <= |gs| == |hs| && forall i :: j <= i < k ==> gs[i] == hs[i]
    ensures FreeFrom(gs, j, k) == FreeFrom(hs, j, k) && FrontsFrom(gs, j, k) == FrontsFrom(hs, j, k)
    decreases k - j
  {
    if j < k {
      SameFrom(gs, hs, j + 1, k);
    }
  }

  lemma {:induction false} FreeAtLeast(gs: seq<Group>, j: nat, k: nat)
    requires j <= k <= |gs| && forall i :: j <= i < k ==> gs[i].free > 0
    ensures FreeFrom(gs, j, k) >= k - j
    decreases k - j
  {
    if j < k {
      FreeAtLeast(gs, j + 1, k);
    }
  }

  lemma {:induction false} SpentFirst(gs: seq<Group>, j: nat, k: nat)
    requires j < k <= |gs| && Spent(gs, j, k)
    ensures FirstUntouched(gs, 0) == j == FirstFit(gs, gs[j].free, 0)
    ensures Spent(GrabAt(gs, j, gs[j].free), j + 1, k)
  {
    UntouchedNeverMissed(gs, 0, j);
    FirstFitBefore(gs, gs[j].free, 0, j);
    hide FirstUntouched, FirstFit;
  }

  lemma {:induction false} LastFills(gs: seq<Group>, j: nat)
    requires j < |gs| && gs[j].free > 0 && FirstUntouched(gs, 0) == j == FirstFit(gs, gs[j].free, 0)
    ensures var o := AllocatorSpec.Spill(gs, gs[j].free); o.Done? && o.runs == [FrontRun(gs[j], gs[j].free, j)]
  {
    SpillStep(gs, gs[j].free);
    hide AllocatorSpec.Spill, FirstUntouched, FirstFit, FrontRun, GrabAt;
  }

  lemma {:induction false} NextFills(gs: seq<Group>, j: nat, more: nat)
    requires j < |gs| && gs[j].free > 0 && more > 0 && FirstUntouched(gs, 0) == j
    ensures AllocatorSpec.Spill(gs, gs[j].free + more)
         == Prepend(FrontRun(gs[j], gs[j].free, j), AllocatorSpec.Spill(GrabAt(gs, j, gs[j].free), more))
  {
    SpillStep(gs, gs[j].free + more);
    hide AllocatorSpec.Spill, FirstUntouched, Contiguous, FrontRun, GrabAt;
  }

  lemma SpentStep(gs: seq<Group>, j: nat, k: nat)
    requires j < k <= |gs| && Spent(gs, j, k)
    ensures gs[j].free > 0 && (forall i :: j + 1 <= i < k ==> gs[i].free > 0)
    ensures FreeFrom(gs, j, k) == gs[j].free + FreeFrom(gs, j + 1, k)
    ensures FrontsFrom(gs, j, k) == [FrontRun(gs[j], gs[j].free, j)] + FrontsFrom(gs, j + 1, k)
    ensures forall i :: j + 1 <= i < k ==> gs[i] == GrabAt(gs, j, gs[j].free)[i]
  {}

  lemma NoneLeft(gs: seq<Group>, k: nat)
    requires k <= |gs|
    ensures FreeFrom(gs, k, k) == 0 && FrontsFrom(gs, k, k) == []
    ensures var o := AllocatorSpec.Spill(gs, 0); o.Done? && o.runs == []
  {}

  /** A request for all the free blocks of such groups gets one region from each. */
  lemma {:induction false} SpillFills(gs: seq<Group>, j: nat, k: nat)
    requires j <= k <= |gs| && Spent(gs, j, k)
    ensures var o := AllocatorSpec.Spill(gs, FreeFrom(gs, j, k)); o.Done? && o.runs == FrontsFrom(gs, j, k)
    decreases k - j
  {
    NoneLeft(gs, k);
    hide *;
    if j < k {
      SpentFirst(gs, j, k);
      SpentStep(gs, j, k);
      if j + 1 == k {
        LastFills(gs, j);
        assert [FrontRun(gs[j], gs[j].free, j)] + [] == [FrontRun(gs[j], gs[j].free, j)];
      } else {
        var after := GrabAt(gs, j, gs[j].free);
        FreeAtLeast(gs, j + 1, k);
        NextFills(gs, j, FreeFrom(gs, j + 1, k));
        SameFrom(gs, after, j + 1, k);
        SpillFills(after, j + 1, k);
        Prepended(FrontRun(gs[j], gs[j].free, j), AllocatorSpec.Spill(after, FreeFrom(gs, j + 1, k)));
      }
    }
  }

  lemma Prepended(r: Run, o: Outcome)
    requires o.Done?
    ensures Prepend(r, o).Done? && Prepend(r, o).runs == [r] + o.runs
  {}

  lemma {:induction false} FrontsAt(gs: seq<Group>, j: nat, k: nat, i: nat)
    requires j <= i < k <= |gs|
    ensures FrontsFrom(gs, j, k)[i - j] == FrontRun(gs[i], gs[i].free, i)
    decreases i - j
  {
    if j < i {
      FrontsAt(gs, j + 1, k, i);
    }
  }

  /** When no single group holds them, the request gets exactly these regions. */
  lemma {:induction false} FillsGroups(gs: seq<Group>, k: nat)
    requires k <= |gs| && Spent(gs, 0, k) && FreeFrom(gs, 0, k) > 0
    requires forall i :: 0 <= i < |gs| ==> gs[i].free < FreeFrom(gs, 0, k)
    ensures var o := AllocatorSpec.DoAllocate(gs, FreeFrom(gs, 0, k)); o.Done? && o.runs == FrontsFrom(gs, 0, k)
  {
    SpillFills(gs, 0, k);
    hide AllocatorSpec.Spill, FrontsFrom, FreeFrom, Spent, FirstFit;
  }

  /** With more of them than entries in the extent block, and a first group of two free blocks, the table is overrun. */
  lemma {:induction false} FilledGroupsOverrun(gs: seq<Group>, k: nat, bs: nat)
    requires k <= |gs| && Spent(gs, 0, k) && 0 < FreeFrom(gs, 0, k) < 0x1_0000_0000
    requires forall i :: 0 <= i < |gs| ==> gs[i].free < FreeFrom(gs, 0, k)
    requires (forall i :: 0 <= i < k ==> gs[i].start > 0) && 3 < k < bs && T.MaxEntries(bs) < k && gs[0].free >= 2
    ensures E.FileOutcome(gs, FreeFrom(gs, 0, k) - 1, bs) == E.Overflow
  {
    var runs := FrontsFrom(gs, 0, k);
    FillsGroups(gs, k);
    forall i | 0 <= i < |runs|
      ensures runs[i].block > 0
    {
      FrontsAt(gs, 0, k, i);
    }
    FrontsAt(gs, 0, k, 0);
    hide AllocatorSpec.DoAllocate, FreeFrom, FrontsFrom, T.MaxEntries, E.FileOutcome, Spent;
    assert AboveZero(runs);
    OverflowIff(gs, FreeFrom(gs, 0, k) - 1, bs);
  }

  // ----- directories -----

  lemma {:induction false} FourLens(a: D.Entry, b: D.Entry, c: D.Entry, d: D.Entry)
    requires |a.name| == |b.name| == |c.name| == 255 && |d.name| in {196, 200}
    ensures D.EntryLens([a, b, c, d]) == [264, 264, 264, if |d.name| == 200 then 208 else 204]
  {}

  /** Three names of 255 bytes and one of 200 in blocks of 1K: make_directory stores a record behind its buffer and aborts.
      With 196 bytes in the last name, the closing record is the one that does not fit. */
  lemma {:induction false} FourNames(a: D.Entry, b: D.Entry, c: D.Entry, d: D.Entry)
    requires |a.name| == |b.name| == |c.name| == 255 && |d.name| in {196, 200}
    ensures D.OutcomeFor(D.EntryLens([a, b, c, d]), 1024) == if |d.name| == 200 then D.Aborted else D.ClosingOverrun
  {
    hide *;
    FourLens(a, b, c, d);
    D.OutcomeIs(D.EntryLens([a, b, c, d]), 1024);
    if |d.name| == 200 {
      L.ExactFitAborts();
    } else {
      L.FourBytesLeft();
    }
  }

  // ----- SHA-1 -----

  /** One update of 2^29 bytes into a fresh context leaves both count words at zero. */
  lemma LongUpdateMiscounts()
    ensures H.Count0(0, 0x2000_0000) == 0 == H.Count1(0, 0, 0x2000_0000) && !H.Counted(0, 0, 0x2000_0000)
  {}

  // ----- the two output modes -----

  /** An image whose last byte is not zero. */
  lemma LastByteLost(data: seq<byte>)
    requires data != [] && data[|data| - 1] != 0
    ensures var ws := [W.Write(0, data)];
            W.PlainImage(ws, |data|) != W.FlatImage(ws, |data|) && W.FlatImage(ws, |data|) == data
  {
    var ws := [W.Write(0, data)];
    assert W.Most(ws) == [] && W.Overlay(Zeros(|data|), []) == Zeros(|data|);
    assert W.FlatImage(ws, |data|) == data;
    W.ModesAgree(ws, |data|);
  }
}
