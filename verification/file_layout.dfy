/** What mapping a file does to the image under construction. */
module FileLayout {
  import opened Words
  import opened Geometry
  import opened AllocatorSpec
  import opened AllocatorRuns
  import opened BlockGroups
  import opened Allocators
  import opened AllocatorSafety
  import opened WriteQueue
  import opened QueueAreas
  import opened HeaderQueue
  import opened ExtentTree
  import opened FileReadBack
  import E = Extents
  import S = ExtentsSpec

  // ----- the blocks a file keeps -----

  /** The block set aside for the extent block, if there is one. */
  function LeafRuns(runs: seq<Run>): seq<Run> {
    if |runs| <= 3 then []
    else if runs[0].len > 1 then [Run(runs[0].block, 1, runs[0].bg)]
    else [Run(runs[1].block, 1, runs[1].bg)]
  }

  predicate PartOf(n: Run, o: Run) {
    n.bg == o.bg && n.len > 0 && o.block <= n.block && n.block + n.len <= o.block + o.len
  }

  ghost predicate PartOfOne(n: Run, runs: seq<Run>) {
    exists o :: o in runs && PartOf(n, o)
  }

  ghost predicate PartsOf(new': seq<Run>, old': seq<Run>) {
    forall k :: 0 <= k < |new'| ==> PartOfOne(new'[k], old')
  }

  lemma PartAt(new': seq<Run>, old': seq<Run>, k: nat) returns (i: nat)
    requires PartsOf(new', old') && k < |new'|
    ensures i < |old'| && PartOf(new'[k], old'[i])
  {
    hide PartOf;
    assert PartOfOne(new'[k], old');
    var o :| o in old' && PartOf(new'[k], o);
    i :| 0 <= i < |old'| && old'[i] == o;
  }

  lemma PartInside(n: Run, o: Run, gs: seq<Group>, shapes: seq<Shape>)
    requires PartOf(n, o) && AllocatorRuns.Inside(o, gs, shapes)
    ensures AllocatorRuns.Inside(n, gs, shapes)
  {}

  lemma PartApart(r: Run, n: Run, o: Run)
    requires PartOf(n, o) && Disjoint(r, o)
    ensures Disjoint(r, n)
  {}

  /** Live regions may be cut into parts. */
  lemma {:induction false} PartsSafe(gs: seq<Group>, live: seq<Run>, old': seq<Run>, new': seq<Run>, shapes: seq<Shape>)
    requires Safe(gs, live + old', shapes) && PartsOf(new', old') && AllDisjoint(new')
    ensures Safe(gs, live + new', shapes)
  {
    var all, cut := live + old', live + new';
    hide AllFit, Apart, Disjoint, AllocatorRuns.Inside, PartOf;
    forall j | 0 <= j < |cut|
      ensures AllocatorRuns.Inside(cut[j], gs, shapes)
    {
      if j < |live| {
        assert all[j] == cut[j];
      } else {
        var i := PartAt(new', old', j - |live|);
        assert all[|live| + i] == old'[i] && cut[j] == new'[j - |live|];
        PartInside(new'[j - |live|], old'[i], gs, shapes);
      }
    }
    forall i, j | 0 <= i < j < |cut|
      ensures Disjoint(cut[i], cut[j])
    {
      if j < |live| {
        assert all[i] == cut[i] && all[j] == cut[j];
      } else if i < |live| {
        var k := PartAt(new', old', j - |live|);
        assert all[i] == cut[i] && all[|live| + k] == old'[k] && cut[j] == new'[j - |live|];
        PartApart(cut[i], cut[j], old'[k]);
      } else {
        assert cut[i] == new'[i - |live|] && cut[j] == new'[j - |live|];
      }
    }
  }

  lemma {:induction false} LiveSuffix(gs: seq<Group>, live: seq<Run>, runs: seq<Run>, shapes: seq<Shape>)
    requires Safe(gs, live + runs, shapes)
    ensures AllDisjoint(runs)
  {
    SuffixDisjoint(live, runs);
  }

  lemma {:induction false} LongFirst(runs: seq<Run>)
    requires |runs| > 3 && runs[0].len > 1 && S.AllPositive(runs) && AllDisjoint(runs)
    ensures var cut := [Run(runs[0].block, 1, runs[0].bg)] + ([Regions.Back(runs[0], 1)] + runs[1..]);
            PartsOf(cut, runs) && AllDisjoint(cut)
  {
    var r := runs[0];
    var cut := [Run(r.block, 1, r.bg)] + ([Regions.Back(r, 1)] + runs[1..]);
    forall k | 0 <= k < |cut|
      ensures PartOfOne(cut[k], runs)
    {
      var o := if k < 2 then r else runs[k - 1];
      assert o in runs && PartOf(cut[k], o);
    }
    forall i, j | 0 <= i < j < |cut|
      ensures Disjoint(cut[i], cut[j])
    {
      if j >= 2 {
        assert cut[j] == runs[j - 1];
        if i >= 2 {
          assert cut[i] == runs[i - 1];
        } else {
          assert Disjoint(r, runs[j - 1]);
        }
      }
    }
  }

  lemma {:induction false} ShortFirst(runs: seq<Run>)
    requires |runs| > 3 && S.AllPositive(runs) && AllDisjoint(runs)
    ensures var cut := [Run(runs[1].block, 1, runs[1].bg)] + [runs[0]]; PartsOf(cut, runs) && AllDisjoint(cut)
  {
    var cut := [Run(runs[1].block, 1, runs[1].bg)] + [runs[0]];
    assert Disjoint(runs[0], runs[1]) && runs[0].len > 0 && runs[1].len > 0;
    forall k | 0 <= k < |cut|
      ensures PartOfOne(cut[k], runs)
    {
      assert runs[1 - k] in runs && PartOf(cut[k], runs[1 - k]);
    }
  }

  /** Settling the blocks of a file leaves a safe state: the extent block and the kept regions are live. */
  lemma {:induction false} KeptSafe(gs: seq<Group>, live: seq<Run>, runs: seq<Run>, shapes: seq<Shape>)
    requires Safe(gs, live + runs, shapes) && |runs| > 0 && S.AllPositive(runs) && AtBack(gs, runs[0])
    ensures Safe(S.Keep(gs, runs).groups, live + (LeafRuns(runs) + S.Keep(gs, runs).runs), shapes)
  {
    if |runs| <= 3 {
      S.KeepFew(gs, runs);
      E.FewKept(gs, runs);
      ReduceSafe(gs, live, runs, shapes, 1);
      assert LeafRuns(runs) + S.Keep(gs, runs).runs == S.Keep(gs, runs).runs;
    } else {
      S.KeepMany(gs, runs);
      LiveSuffix(gs, live, runs, shapes);
      if runs[0].len > 1 {
        LongFirst(runs);
      } else {
        ShortFirst(runs);
      }
      PartsSafe(gs, live, runs, LeafRuns(runs) + S.Keep(gs, runs).runs, shapes);
    }
    hide *;
  }

  // ----- the queue -----

  lemma {:induction false} NewRunsClear(info: Info, aux: Aux, keys: seq<Key>, gs: seq<Group>, live: seq<Run>, runs: seq<Run>)
    requires Buildable(info, aux) && KeysOk(info, aux, keys) && Safe(gs, live + runs, Shapes(info, aux))
    ensures Clear(AreasOf(info, aux, keys) + live, runs)
  {
    var areas, all := AreasOf(info, aux, keys) + live, live + runs;
    assert AllDisjoint(all);
    hide Safe, Buildable, Queueable, AreaOf, Disjoint;
    forall k | 0 <= k < |runs|
      ensures ClearAt(areas, runs, k)
    {
      forall a | a in areas + runs[..k]
        ensures Disjoint(a, runs[k])
      {
        var i :| 0 <= i < |areas + runs[..k]| && (areas + runs[..k])[i] == a;
        assert all[|live| + k] == runs[k];
        if i < |keys| {
          assert keys[i] in keys;
          PartVersusLive(info, aux, keys[i], gs, all, |live| + k);
        } else {
          assert all[i - |keys|] == a;
        }
      }
    }
  }

  lemma {:induction false} ClearSplit(areas: seq<Run>, a: seq<Run>, b: seq<Run>)
    requires Clear(areas, a + b)
    ensures Clear(areas, a) && Clear(areas + a, b)
  {
    hide Disjoint;
    forall k | 0 <= k < |a|
      ensures ClearAt(areas, a, k)
    {
      assert ClearAt(areas, a + b, k) && (a + b)[..k] == a[..k];
    }
    forall k | 0 <= k < |b|
      ensures ClearAt(areas + a, b, k)
    {
      assert ClearAt(areas, a + b, |a| + k) && areas + (a + b)[..|a| + k] == areas + a + b[..k];
    }
  }

  lemma OneBlock(r: Run, data: seq<byte>, bs: nat)
    requires bs > 0 && |data| == bs && r.len == 1 && r.block < TWO32
    ensures Fills(r, Item(r.block, Memory(data)), bs)
  {
    DivRoundUpUnique(bs, bs, 1);
    hide DivRoundUp;
  }

  /** The extent block takes the block that was set aside. */
  lemma {:induction false} LeafIsSetAside(gs: seq<Group>, runs: seq<Run>)
    requires |runs| > 0 && S.AllPositive(runs) && AtBack(gs, runs[0])
    ensures |runs| <= 3 ==> LeafRuns(runs) == [] && E.LeafNumber(S.Keep(gs, runs)) == 0
    ensures |runs| > 3 ==> |LeafRuns(runs)| == 1 && LeafRuns(runs)[0].len == 1
                           && LeafRuns(runs)[0].block == E.LeafNumber(S.Keep(gs, runs))
  {
    if |runs| > 3 {
      S.KeepMany(gs, runs);
    } else {
      S.KeepFew(gs, runs);
    }
    hide S.Keep;
  }

  lemma ClearOne(areas: seq<Run>, r: Run)
    requires Clear(areas, [r])
    ensures forall a :: a in areas ==> Disjoint(a, r)
  {
    ClearFrom(areas, [r], 0);
    assert areas + [r][..0] == areas;
    hide Disjoint, Clear;
  }

  lemma {:induction false} LeafSettled(items: seq<Item>, areas: seq<Run>, runs: seq<Run>, kept: seq<Run>, leaf: u32, bs: nat)
    requires bs > 0 && Settled(items, areas, bs) && Clear(areas, LeafRuns(runs))
    requires if |runs| <= 3 then LeafRuns(runs) == [] && leaf == 0
             else |LeafRuns(runs)| == 1 && LeafRuns(runs)[0].len == 1 && LeafRuns(runs)[0].block == leaf
    requires leaf != 0 ==> |kept| <= MaxEntries(bs) && bs >= 12
    ensures Settled(E.WithLeaf(items, leaf, kept, |runs|, bs), areas + LeafRuns(runs), bs)
  {
    E.WithLeafIs(items, leaf, kept, |runs|, bs);
    hide Settled, Clear, E.WithLeaf, LeafBlock, MaxEntries, WriteQueue.Insert, LeafRuns, Fills, Disjoint;
    if leaf == 0 {
      MoreAreas(items, areas, areas + LeafRuns(runs), bs);
    } else {
      var r := LeafRuns(runs)[0];
      LeafLength(kept, |runs|, bs);
      OneBlock(r, LeafBlock(kept, |runs|, bs), bs);
      assert LeafRuns(runs) == [r];
      ClearOne(areas, r);
      AddItem(items, areas, r, Item(leaf, Memory(LeafBlock(kept, |runs|, bs))), bs);
    }
  }

  // ----- a file -----

  function TakenFor(gs: seq<Group>, blocks: nat): seq<Run>
    requires AllocatorSpec.DoAllocate(gs, blocks + 1).Done?
  {
    LeafRuns(AllocatorSpec.DoAllocate(gs, blocks + 1).runs) + E.KeptFor(gs, blocks).runs
  }

  lemma {:induction false} KeptPositive(gs: seq<Group>, runs: seq<Run>)
    requires |runs| > 0 && S.AllPositive(runs) && AtBack(gs, runs[0])
    ensures S.AllPositive(S.Keep(gs, runs).runs)
  {
    if |runs| > 3 {
      S.KeepMany(gs, runs);
    } else {
      S.KeepFew(gs, runs);
    }
    hide S.Keep;
  }

  /** A mapped file has no more entries than its extent block holds. */
  lemma {:induction false} MappedFits(gs: seq<Group>, blocks: nat, bs: nat)
    requires AllocatorSpec.DoAllocate(gs, blocks + 1).Done? && E.FileOutcome(gs, blocks, bs) == E.Mapped
    ensures var kept := E.KeptFor(gs, blocks);
            E.LeafNumber(kept) != 0 ==> |kept.runs| <= MaxEntries(bs) && (kept.runs != [] ==> bs >= 12)
  {
    E.OutcomeIs(gs, blocks, bs);
    E.EndingIs(E.KeptFor(gs, blocks), |AllocatorSpec.DoAllocate(gs, blocks + 1).runs|, bs);
    hide AllocatorSpec.DoAllocate, E.KeptFor, E.FileOutcome, E.Ending, E.LeafNumber;
  }

  /** After the allocation and the settling of a file's blocks the state is safe again. */
  lemma {:induction false} TakenSafe(gs: seq<Group>, live: seq<Run>, blocks: nat, shapes: seq<Shape>)
    requires Safe(gs, live, shapes) && blocks < 0xFFFF_FFFF && AllocatorSpec.DoAllocate(gs, blocks + 1).Done?
    ensures Safe(E.KeptFor(gs, blocks).groups, live + TakenFor(gs, blocks), shapes)
  {
    var o := AllocatorSpec.DoAllocate(gs, blocks + 1);
    AllocateSafe(gs, live, shapes, blocks + 1);
    E.KeptFacts(gs, blocks);
    KeptSafe(o.groups, live, o.runs, shapes);
    hide AllocatorSpec.DoAllocate, E.KeptFor, S.Keep, LeafRuns, Safe, AtBack, S.AllPositive, Total, S.Prefix;
  }

  lemma {:induction false} TakenFacts(gs: seq<Group>, blocks: nat, bs: nat)
    requires blocks < 0xFFFF_FFFF && AllocatorSpec.DoAllocate(gs, blocks + 1).Done? && E.FileOutcome(gs, blocks, bs) == E.Mapped
    ensures var runs, kept := AllocatorSpec.DoAllocate(gs, blocks + 1).runs, E.KeptFor(gs, blocks);
            && (if |runs| <= 3 then LeafRuns(runs) == [] && E.LeafNumber(kept) == 0
                else |LeafRuns(runs)| == 1 && LeafRuns(runs)[0].len == 1 && LeafRuns(runs)[0].block == E.LeafNumber(kept))
            && S.AllPositive(kept.runs) && (E.LeafNumber(kept) != 0 ==> |kept.runs| <= MaxEntries(bs))
  {
    var o := AllocatorSpec.DoAllocate(gs, blocks + 1);
    E.KeptFacts(gs, blocks);
    LeafIsSetAside(o.groups, o.runs);
    KeptPositive(o.groups, o.runs);
    MappedFits(gs, blocks, bs);
    hide *;
  }

  lemma QueuedForParts(gs: seq<Group>, blocks: nat, bs: nat, b: E.Backing, before: seq<Item>, after: seq<Group>,
                       items: seq<Item>, root: seq<byte>)
    requires QueuedFor(gs, blocks, bs, b, before, after, items, root, false)
    ensures AllocatorSpec.DoAllocate(gs, blocks + 1).Done?
    ensures var kept, regions := E.KeptFor(gs, blocks), |AllocatorSpec.DoAllocate(gs, blocks + 1).runs|;
            && after == kept.groups && E.BlocksFit(kept.runs) && E.LeafNumber(kept) < 0x1_0000_0000
            && root == RootOf(kept.runs, E.LeafNumber(kept), regions)
            && |b.data| <= S.Bytes(S.Prefix(kept.runs, |kept.runs|), bs)
            && items == E.Queued(E.WithLeaf(before, E.LeafNumber(kept), kept.runs, regions, bs), kept.runs, |kept.runs|, bs, b)
  {
    hide AllocatorSpec.DoAllocate, E.KeptFor, E.LeafNumber, RootOf, E.BlocksFit, E.WithLeaf, E.Queued, S.Bytes, S.Prefix;
  }

  lemma AllOfThem(areas: seq<Run>, live: seq<Run>, leaf: seq<Run>, kept: seq<Run>)
    ensures forall a :: a in areas + live + leaf + kept[..|kept|] ==> a in areas + (live + (leaf + kept))
  {
    assert kept[..|kept|] == kept;
    assert areas + live + leaf + kept == areas + (live + (leaf + kept));
  }

  /** Mapping a file keeps the image in order: the extent block and the chunks lie in new live regions. */
  lemma {:induction false} FileLaid(info: Info, aux: Aux, keys: seq<Key>, gs: seq<Group>, live: seq<Run>, items: seq<Item>,
                                    blocks: nat, b: E.Backing, after: seq<Group>, items': seq<Item>, root: seq<byte>)
    requires Buildable(info, aux) && Laid(info, aux, keys, gs, live, items) && blocks < 0xFFFF_FFFF
    requires info.blockSize >= 12 && E.FileOutcome(gs, blocks, info.blockSize) == E.Mapped
    requires QueuedFor(gs, blocks, info.blockSize, b, items, after, items', root, false)
    ensures AllocatorSpec.DoAllocate(gs, blocks + 1).Done?
    ensures Laid(info, aux, keys, after, live + TakenFor(gs, blocks), items')
  {
    var bs: nat, areas := info.blockSize, AreasOf(info, aux, keys) + live;
    QueuedForParts(gs, blocks, bs, b, items, after, items', root);
    var runs, kept := AllocatorSpec.DoAllocate(gs, blocks + 1).runs, E.KeptFor(gs, blocks);
    LaidParts(info, aux, keys, gs, live, items);
    TakenSafe(gs, live, blocks, Shapes(info, aux));
    TakenFacts(gs, blocks, bs);
    NewRunsClear(info, aux, keys, after, live, TakenFor(gs, blocks));
    TakenIs(gs, blocks);
    hide *;
    ClearSplit(areas, LeafRuns(runs), kept.runs);
    LeafSettled(items, areas, runs, kept.runs, E.LeafNumber(kept), bs);
    var middle := E.WithLeaf(items, E.LeafNumber(kept), kept.runs, |runs|, bs);
    QueuedSettled(middle, areas + LeafRuns(runs), kept.runs, |kept.runs|, bs, b);
    AllOfThem(AreasOf(info, aux, keys), live, LeafRuns(runs), kept.runs);
    MoreAreas(items', areas + LeafRuns(runs) + kept.runs[..|kept.runs|],
              AreasOf(info, aux, keys) + (live + (LeafRuns(runs) + kept.runs)), bs);
    LaidIs(info, aux, keys, after, live + (LeafRuns(runs) + kept.runs), items');
  }

  lemma TakenIs(gs: seq<Group>, blocks: nat)
    requires AllocatorSpec.DoAllocate(gs, blocks + 1).Done?
    ensures TakenFor(gs, blocks) == LeafRuns(AllocatorSpec.DoAllocate(gs, blocks + 1).runs) + E.KeptFor(gs, blocks).runs
  {}

  lemma LaidParts(info: Info, aux: Aux, keys: seq<Key>, gs: seq<Group>, live: seq<Run>, items: seq<Item>)
    requires Buildable(info, aux) && Laid(info, aux, keys, gs, live, items)
    ensures info.blockSize > 0 && KeysOk(info, aux, keys) && Safe(gs, live, Shapes(info, aux))
    ensures Settled(items, AreasOf(info, aux, keys) + live, info.blockSize)
  {}

  lemma LaidIs(info: Info, aux: Aux, keys: seq<Key>, gs: seq<Group>, live: seq<Run>, items: seq<Item>)
    requires Buildable(info, aux) && info.blockSize > 0 && KeysOk(info, aux, keys) && Safe(gs, live, Shapes(info, aux))
    requires Settled(items, AreasOf(info, aux, keys) + live, info.blockSize)
    ensures Laid(info, aux, keys, gs, live, items)
  {}
}
