/** Queues whose items lie in areas of the device that do not meet. */
module QueueAreas {
  import opened Words
  import opened AllocatorSpec
  import opened AllocatorRuns
  import opened ExtentsSpec
  import opened Extents
  import opened WriteQueue
  import opened Ext4Image

  /** The blocks of an item are some of an area, and there is at least one. */
  ghost predicate Fills(r: Run, x: Item, bs: nat)
    requires bs > 0
  {
    Backed(x.source) && Data(x.source) != [] && r.block <= x.block && x.block + BlockCount(x, bs) <= r.block + r.len
  }

  ghost predicate Housed(x: Item, areas: seq<Run>, bs: nat)
    requires bs > 0
  {
    exists a :: a in areas && Fills(a, x, bs)
  }

  /** Every item lies in one of the areas, and no two items share a block. */
  ghost predicate Settled(items: seq<Item>, areas: seq<Run>, bs: nat)
    requires bs > 0
  {
    && AllBacked(items) && BlocksApart(items, bs)
    && forall i :: 0 <= i < |items| ==> Housed(items[i], areas, bs)
  }

  lemma NothingSettled(areas: seq<Run>, bs: nat)
    requires bs > 0
    ensures Settled([], areas, bs)
  {}

  lemma MoreAreas(items: seq<Item>, areas: seq<Run>, more: seq<Run>, bs: nat)
    requires bs > 0 && Settled(items, areas, bs) && forall a :: a in areas ==> a in more
    ensures Settled(items, more, bs)
  {
    hide Fills, AllBacked, BlocksApart;
    forall i | 0 <= i < |items|
      ensures Housed(items[i], more, bs)
    {
      assert Housed(items[i], areas, bs);
      var a :| a in areas && Fills(a, items[i], bs);
      assert a in more;
    }
  }

  ghost predicate ItemsApart(x: Item, y: Item, bs: nat)
    requires bs > 0 && Backed(x.source) && Backed(y.source)
  {
    x.block + BlockCount(x, bs) <= y.block || y.block + BlockCount(y, bs) <= x.block
  }

  lemma FilledApart(r: Run, s: Run, x: Item, y: Item, bs: nat)
    requires bs > 0 && Fills(r, x, bs) && Fills(s, y, bs) && Disjoint(r, s)
    ensures ItemsApart(x, y, bs)
  {
    CountPositive(|Data(x.source)|, bs);
    CountPositive(|Data(y.source)|, bs);
    hide DivRoundUp;
  }

  /** Nothing in the areas shares a block with an item outside them. */
  lemma OutsideApart(items: seq<Item>, areas: seq<Run>, r: Run, x: Item, bs: nat, i: nat)
    requires bs > 0 && Settled(items, areas, bs) && i < |items| && Fills(r, x, bs)
    requires forall a :: a in areas ==> Disjoint(a, r)
    ensures Backed(items[i].source) && Backed(x.source) && ItemsApart(items[i], x, bs)
  {
    assert Housed(items[i], areas, bs);
    var a :| a in areas && Fills(a, items[i], bs);
    FilledApart(a, r, items[i], x, bs);
    hide Settled, Fills;
  }

  lemma InsertedAt(items: seq<Item>, x: Item, i: nat)
    requires i <= |items|
    ensures var p, s := WriteQueue.Index(items, x), WriteQueue.Insert(items, x);
            |s| == |items| + 1 && s[i] == if i == p then x else if i < p then items[i] else items[i - 1]
  {}

  lemma BackedInserted(items: seq<Item>, x: Item)
    requires AllBacked(items) && Backed(x.source)
    ensures AllBacked(WriteQueue.Insert(items, x))
  {
    hide WriteQueue.Insert, Backed, WriteQueue.Index;
    var s := WriteQueue.Insert(items, x);
    InsertedAt(items, x, 0);
    forall i | 0 <= i < |s|
      ensures Backed(s[i].source)
    {
      InsertedAt(items, x, i);
    }
  }

  /** Any two items behind the insertion are apart. */
  lemma PairInserted(items: seq<Item>, x: Item, bs: nat, i: nat, j: nat)
    requires bs > 0 && AllBacked(items) && Backed(x.source) && BlocksApart(items, bs)
    requires forall k :: 0 <= k < |items| ==> ItemsApart(items[k], x, bs)
    requires i < j <= |items|
    ensures var s := WriteQueue.Insert(items, x);
            |s| == |items| + 1 && Backed(s[i].source) && Backed(s[j].source) && ItemsApart(s[i], s[j], bs)
  {
    hide *;
    var p := WriteQueue.Index(items, x);
    InsertedAt(items, x, i);
    InsertedAt(items, x, j);
    if i == p {
      BackedAt(items, j - 1);
      Swapped(items[j - 1], x, bs);
    } else if j == p {
      BackedAt(items, i);
    } else {
      ApartAt(items, bs, if i < p then i else i - 1, if j < p then j else j - 1);
    }
  }

  lemma BackedAt(items: seq<Item>, i: nat)
    requires AllBacked(items) && i < |items|
    ensures Backed(items[i].source)
  {}

  lemma Swapped(x: Item, y: Item, bs: nat)
    requires bs > 0 && Backed(x.source) && Backed(y.source) && ItemsApart(x, y, bs)
    ensures ItemsApart(y, x, bs)
  {}

  lemma ApartAt(items: seq<Item>, bs: nat, i: nat, j: nat)
    requires bs > 0 && AllBacked(items) && BlocksApart(items, bs) && i < j < |items|
    ensures Backed(items[i].source) && Backed(items[j].source) && ItemsApart(items[i], items[j], bs)
  {
    hide BlockCount, Backed;
  }

  lemma ApartInserted(items: seq<Item>, x: Item, bs: nat)
    requires bs > 0 && AllBacked(items) && Backed(x.source) && BlocksApart(items, bs)
    requires forall i :: 0 <= i < |items| ==> ItemsApart(items[i], x, bs)
    ensures AllBacked(WriteQueue.Insert(items, x)) && BlocksApart(WriteQueue.Insert(items, x), bs)
  {
    BackedInserted(items, x);
    InsertedAt(items, x, 0);
    var s := WriteQueue.Insert(items, x);
    forall i, j | 0 <= i < j < |s|
      ensures ItemsApart(s[i], s[j], bs)
    {
      PairInserted(items, x, bs, i, j);
    }
    hide WriteQueue.Insert, WriteQueue.Index, BlockCount, Backed;
  }

  /** An item in a new area joins the queue. */
  lemma AddItem(items: seq<Item>, areas: seq<Run>, r: Run, x: Item, bs: nat)
    requires bs > 0 && Settled(items, areas, bs) && Fills(r, x, bs) && forall a :: a in areas ==> Disjoint(a, r)
    ensures Settled(WriteQueue.Insert(items, x), areas + [r], bs)
  {
    var s, more := WriteQueue.Insert(items, x), areas + [r];
    forall i | 0 <= i < |items|
      ensures ItemsApart(items[i], x, bs)
    {
      OutsideApart(items, areas, r, x, bs, i);
    }
    ApartInserted(items, x, bs);
    MoreAreas(items, areas, more, bs);
    assert r in more;
    assert Housed(x, more, bs);
    InsertedAt(items, x, 0);
    hide WriteQueue.Insert, WriteQueue.Index, Fills, Housed, BlocksApart, AllBacked, ItemsApart;
    forall i | 0 <= i < |s|
      ensures Housed(s[i], more, bs)
    {
      InsertedAt(items, x, i);
    }
  }

  // ----- the chunks of a file -----

  lemma PartFills(runs: seq<Run>, k: nat, bs: nat, b: Backing)
    requires bs > 0 && k < |runs| && runs[k].block < TWO32 && runs[k].len > 0 && Cap(runs, k, bs, |b.data|) < |b.data|
    ensures Fills(runs[k], PartItem(runs, k, bs, b), bs)
  {
    var n := |b.data|;
    CapGrows(runs, k, bs, n);
    var x := PartItem(runs, k, bs, b);
    MulNonNegative(runs[k].len - 1, bs);
    assert Bytes(runs[k].len, bs) >= bs by {
      MulGap(0, runs[k].len, bs);
    }
    assert |Data(x.source)| == Cap(runs, k + 1, bs, n) - Cap(runs, k, bs, n);
    hide Cap;
    FewBlocks(|Data(x.source)|, runs[k].len, bs);
  }

  lemma FewBlocks(n: nat, len: nat, bs: nat)
    requires bs > 0 && n <= Bytes(len, bs)
    ensures DivRoundUp(n, bs) <= len
  {
    DivRoundUpBounds(n, bs);
    hide DivRoundUp;
    MulGap(len, DivRoundUp(n, bs), bs);
  }

  /** No region meets an area or a region in front of it. */
  ghost predicate Clear(areas: seq<Run>, runs: seq<Run>) {
    forall k :: 0 <= k < |runs| ==> ClearAt(areas, runs, k)
  }

  ghost predicate ClearAt(areas: seq<Run>, runs: seq<Run>, k: nat)
    requires k < |runs|
  {
    forall a :: a in areas + runs[..k] ==> Disjoint(a, runs[k])
  }

  lemma ClearFrom(areas: seq<Run>, runs: seq<Run>, k: nat)
    requires Clear(areas, runs) && k < |runs|
    ensures forall a :: a in areas + runs[..k] ==> Disjoint(a, runs[k])
  {
    assert ClearAt(areas, runs, k);
    hide Disjoint;
  }

  lemma {:induction false} OneMoreRun(areas: seq<Run>, runs: seq<Run>, k: nat)
    requires k < |runs|
    ensures areas + runs[..k + 1] == areas + runs[..k] + [runs[k]] && areas + runs[..0] == areas
  {}

  lemma {:induction false} RunPositive(runs: seq<Run>, k: nat)
    requires AllPositive(runs) && k < |runs|
    ensures runs[k].len > 0
  {}

  /** One region and its chunk. */
  lemma {:induction false} QueuedStep(items: seq<Item>, areas: seq<Run>, runs: seq<Run>, k: nat, bs: nat, b: Backing)
    requires bs > 0 && k < |runs| && BlocksFit(runs) && runs[k].len > 0 && runs[k].block < TWO32
    requires Settled(Queued(items, runs, k, bs, b), areas, bs) && forall a :: a in areas ==> Disjoint(a, runs[k])
    ensures Settled(Queued(items, runs, k + 1, bs, b), areas + [runs[k]], bs)
  {
    QueuedMore(items, runs, k, bs, b);
    hide Settled, Queued, PartItem, Cap, BlocksFit, Fills, Disjoint, WriteQueue.Insert;
    if Cap(runs, k, bs, |b.data|) < |b.data| {
      PartFills(runs, k, bs, b);
      AddItem(Queued(items, runs, k, bs, b), areas, runs[k], PartItem(runs, k, bs, b), bs);
    } else {
      MoreAreas(Queued(items, runs, k, bs, b), areas, areas + [runs[k]], bs);
    }
  }

  /** The chunks of a file, in regions that meet no other area. */
  lemma {:induction false} QueuedSettled(items: seq<Item>, areas: seq<Run>, runs: seq<Run>, k: nat, bs: nat, b: Backing)
    requires bs > 0 && Settled(items, areas, bs) && Clear(areas, runs) && BlocksFit(runs) && k <= |runs|
    requires AllPositive(runs)
    ensures Settled(Queued(items, runs, k, bs, b), areas + runs[..k], bs)
  {
    hide *;
    if k == 0 {
      NothingQueued(items, runs, bs, b);
      assert areas + runs[..0] == areas;
    } else {
      QueuedSettled(items, areas, runs, k - 1, bs, b);
      ClearFrom(areas, runs, k - 1);
      RunPositive(runs, k - 1);
      BlockFits(runs, k - 1);
      OneMoreRun(areas, runs, k - 1);
      QueuedStep(items, areas + runs[..k - 1], runs, k - 1, bs, b);
    }
  }
}
