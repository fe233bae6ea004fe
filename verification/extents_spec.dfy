/** The extent table and the queued chunks of a file, as two readings of the same regions. */
module ExtentsSpec {
  import opened Words
  import opened AllocatorSpec
  import opened AllocatorRuns
  import opened Regions

  /** File blocks [first, first + len) lie at block on. */
  datatype Extent = Extent(first: nat, len: nat, block: nat)

  /** The blocks in front of region k. */
  function Prefix(runs: seq<Run>, k: nat): nat
    requires k <= |runs|
  {
    if k == 0 then 0 else Prefix(runs, k - 1) + runs[k - 1].len
  }

  function ExtentAt(runs: seq<Run>, k: nat): Extent
    requires k < |runs|
  {
    Extent(Prefix(runs, k), runs[k].len, runs[k].block)
  }

  /** The table the loop over the regions has filled after k of them. */
  function ExtentsOf(runs: seq<Run>, k: nat): (es: seq<Extent>)
    requires k <= |runs|
    ensures |es| == k
  {
    if k == 0 then [] else ExtentsOf(runs, k - 1) + [ExtentAt(runs, k - 1)]
  }

  lemma {:induction false} ExtentsAt(runs: seq<Run>, k: nat, i: nat)
    requires i < k <= |runs|
    ensures ExtentsOf(runs, k)[i] == ExtentAt(runs, i)
  {
    if i < k - 1 {
      ExtentsAt(runs, k - 1, i);
    }
  }

  /** The table starts at file block 0 and has no gap. */
  lemma {:induction false} ExtentsContiguous(runs: seq<Run>, k: nat, i: nat)
    requires i < k <= |runs|
    ensures var es := ExtentsOf(runs, k);
            && (i == 0 ==> es[i].first == 0)
            && (i + 1 < k ==> es[i + 1].first == es[i].first + es[i].len)
            && (i + 1 == k ==> es[i].first + es[i].len == Prefix(runs, k))
  {
    ExtentsAt(runs, k, i);
    if i + 1 < k {
      ExtentsAt(runs, k, i + 1);
    }
    hide ExtentsOf;
  }

  // ----- reading through the table -----

  /** The block of a file block, or -1. */
  function Lookup(es: seq<Extent>, fb: nat): int {
    if es == [] then -1
    else
      var e := es[|es| - 1];
      if e.first <= fb < e.first + e.len then e.block + (fb - e.first) else Lookup(es[..|es| - 1], fb)
  }

  lemma {:induction false} PrefixGrows(runs: seq<Run>, i: nat, k: nat)
    requires i <= k <= |runs|
    ensures Prefix(runs, i) <= Prefix(runs, k)
  {
    if i < k {
      PrefixGrows(runs, i, k - 1);
    }
  }

  /** File block j of region i is found there. */
  lemma {:induction false} LookupIs(runs: seq<Run>, k: nat, i: nat, j: nat)
    requires i < k <= |runs| && j < runs[i].len
    ensures Lookup(ExtentsOf(runs, k), Prefix(runs, i) + j) == runs[i].block + j
  {
    var es := ExtentsOf(runs, k);
    assert es[..k - 1] == ExtentsOf(runs, k - 1) && es[k - 1] == ExtentAt(runs, k - 1);
    if i < k - 1 {
      LookupIs(runs, k - 1, i, j);
      PrefixGrows(runs, i + 1, k - 1);
    }
    hide ExtentsOf;
  }

  /** The region of a file block. */
  lemma {:induction false} RegionOf(runs: seq<Run>, k: nat, fb: nat) returns (i: nat, j: nat)
    requires k <= |runs| && fb < Prefix(runs, k)
    ensures i < k && j < runs[i].len && fb == Prefix(runs, i) + j
  {
    if fb < Prefix(runs, k - 1) {
      i, j := RegionOf(runs, k - 1, fb);
    } else {
      i, j := k - 1, fb - Prefix(runs, k - 1);
    }
  }

  /** Different file blocks lie in different blocks. */
  lemma {:induction false} DistinctBlocks(runs: seq<Run>, fb: nat, gb: nat)
    requires AllDisjoint(runs) && fb < gb < Prefix(runs, |runs|)
    ensures 0 <= Lookup(ExtentsOf(runs, |runs|), fb) != Lookup(ExtentsOf(runs, |runs|), gb)
  {
    var i, j := RegionOf(runs, |runs|, fb);
    var k, l := RegionOf(runs, |runs|, gb);
    LookupIs(runs, |runs|, i, j);
    LookupIs(runs, |runs|, k, l);
    hide Lookup, ExtentsOf, Prefix;
    if i < k {
      assert Disjoint(runs[i], runs[k]);
    } else if k < i {
      assert Disjoint(runs[k], runs[i]);
    }
  }

  // ----- the queued chunks -----

  /** The byte at which region k begins in a file of n bytes. */
  function Cap(runs: seq<Run>, k: nat, bs: nat, n: nat): (c: nat)
    requires k <= |runs|
    ensures c <= n
  {
    if Prefix(runs, k) * bs < n then Bytes(Prefix(runs, k), bs) else n
  }

  function Bytes(blocks: nat, bs: nat): nat {
    MulNonNegative(blocks, bs);
    blocks * bs
  }

  lemma {:induction false} CapGrows(runs: seq<Run>, k: nat, bs: nat, n: nat)
    requires k < |runs|
    ensures Cap(runs, k, bs, n) <= Cap(runs, k + 1, bs, n)
    ensures Cap(runs, k, bs, n) < n ==>
              Cap(runs, k + 1, bs, n) == Cap(runs, k, bs, n) + Min(Bytes(runs[k].len, bs), n - Cap(runs, k, bs, n))
  {
    assert Prefix(runs, k + 1) * bs == Prefix(runs, k) * bs + runs[k].len * bs;
    MulNonNegative(runs[k].len, bs);
    MulNonNegative(Prefix(runs, k), bs);
  }

  /** The part of the file that region k gets. */
  function Part(runs: seq<Run>, k: nat, bs: nat, data: seq<byte>): seq<byte>
    requires k < |runs|
  {
    CapGrows(runs, k, bs, |data|);
    data[Cap(runs, k, bs, |data|)..Cap(runs, k + 1, bs, |data|)]
  }

  /** The image holds the part of region k at the region's first block. */
  ghost predicate PartWritten(image: seq<byte>, runs: seq<Run>, k: nat, bs: nat, data: seq<byte>)
    requires k < |runs|
  {
    var part, at := Part(runs, k, bs, data), Bytes(runs[k].block, bs);
    part == [] || (at + |part| <= |image| && image[at..at + |part|] == part)
  }

  /** Byte o of a file whose block o / bs is this one. */
  ghost predicate FoundAt(image: seq<byte>, block: int, bs: nat, o: nat, b: byte)
    requires bs > 0
  {
    var at := block * bs + o % bs;
    0 <= at < |image| && image[at] == b
  }

  /** Byte o of a file read through the extent table. */
  ghost predicate ReadsByte(image: seq<byte>, es: seq<Extent>, bs: nat, o: nat, b: byte)
    requires bs > 0
  {
    FoundAt(image, Lookup(es, Div(o, bs)), bs, o, b)
  }

  lemma {:induction false} Within(runs: seq<Run>, bs: nat, o: nat, i: nat, j: nat)
    requires bs > 0 && i < |runs| && j < runs[i].len && o / bs == Prefix(runs, i) + j
    ensures Bytes(Prefix(runs, i), bs) <= o == Bytes(Prefix(runs, i), bs) + Bytes(j, bs) + o % bs
    ensures o < Bytes(Prefix(runs, i + 1), bs)
    ensures (runs[i].block + j) * bs + o % bs == Bytes(runs[i].block, bs) + (Bytes(j, bs) + o % bs)
  {
    assert o == o / bs * bs + o % bs;
    assert o / bs * bs == Prefix(runs, i) * bs + j * bs;
    MulGap(j, runs[i].len, bs);
    assert Prefix(runs, i + 1) * bs == Prefix(runs, i) * bs + runs[i].len * bs;
    assert (runs[i].block + j) * bs == runs[i].block * bs + j * bs;
  }

  lemma {:induction false} PartByte(image: seq<byte>, runs: seq<Run>, i: nat, bs: nat, data: seq<byte>, o: nat)
    requires i < |runs| && o < |data| && PartWritten(image, runs, i, bs, data)
    requires Bytes(Prefix(runs, i), bs) <= o < Bytes(Prefix(runs, i + 1), bs)
    ensures var at := Bytes(runs[i].block, bs) + (o - Bytes(Prefix(runs, i), bs)); at < |image| && image[at] == data[o]
  {
    var part, at := Part(runs, i, bs, data), Bytes(runs[i].block, bs);
    var d := o - Bytes(Prefix(runs, i), bs);
    CapGrows(runs, i, bs, |data|);
    assert Cap(runs, i, bs, |data|) == Bytes(Prefix(runs, i), bs) && o < Cap(runs, i + 1, bs, |data|);
    hide Cap, Prefix, Bytes;
    assert part[d] == data[o];
    assert image[at..at + |part|][d] == image[at + d];
  }

  /** Reading the image through the extent table gives back every byte of the backing. */
  lemma {:induction false} ReadBack(image: seq<byte>, runs: seq<Run>, bs: nat, data: seq<byte>, o: nat)
    requires bs > 0 && o < |data| <= Bytes(Prefix(runs, |runs|), bs)
    requires forall k :: 0 <= k < |runs| ==> PartWritten(image, runs, k, bs, data)
    ensures ReadsByte(image, ExtentsOf(runs, |runs|), bs, o, data[o])
  {
    BlockInside(o, bs, Prefix(runs, |runs|));
    var i, j := RegionOf(runs, |runs|, o / bs);
    LookupIs(runs, |runs|, i, j);
    Within(runs, bs, o, i, j);
    PartByte(image, runs, i, bs, data, o);
    hide Lookup, ExtentsOf, Prefix, PartWritten, Bytes;
  }

  lemma {:induction false} BlockInside(o: nat, bs: nat, n: nat)
    requires bs > 0 && o < Bytes(n, bs)
    ensures o / bs < n
  {
    assert o == o / bs * bs + o % bs;
    MulGap(n - 1, o / bs, bs);
  }

  // ----- a file of len blocks -----

  ghost predicate AllPositive(runs: seq<Run>) {
    forall i :: 0 <= i < |runs| ==> runs[i].len > 0
  }

  lemma {:induction false} SpillPositive(gs: seq<Group>, len: nat)
    ensures AllPositive(SpillRuns(gs, len))
    decreases len
  {
    var next := Partial(gs, len);
    if len > 0 && next.Done? {
      PartialOne(gs, len);
      if next.runs[0].len > 0 {
        SpillPositive(next.groups, len - next.runs[0].len);
        hide Partial;
        assert SpillRuns(gs, len) == [next.runs[0]] + SpillRuns(next.groups, len - next.runs[0].len);
      }
    }
  }

  /** No region of a successful allocation is empty. */
  lemma {:induction false} AllocationPositive(gs: seq<Group>, len: nat)
    requires len > 0 && DoAllocate(gs, len).Done?
    ensures AllPositive(DoAllocate(gs, len).runs)
  {
    if Contiguous(gs, len).Done? {
    } else {
      SpillTakes(gs, len);
      SpillPositive(gs, len);
    }
    hide Spill, SpillRuns, Taken;
  }

  lemma {:induction false} PrefixIsTotal(runs: seq<Run>, k: nat)
    requires k <= |runs|
    ensures Prefix(runs, |runs|) == Prefix(runs, k) + Total(runs[k..])
    decreases |runs| - k
  {
    if k < |runs| {
      PrefixIsTotal(runs, k + 1);
      assert runs[k..][0] == runs[k] && runs[k..][1..] == runs[k + 1..];
    }
  }

  /** What do_inode_allocate_extents keeps of a fresh allocation: up to three regions lose the extra block, more of
      them give their first block to the extent block. */
  datatype Kept = Kept(groups: seq<Group>, runs: seq<Run>, leaf: int)

  function Keep(gs: seq<Group>, runs: seq<Run>): Kept
    requires |runs| > 0 && AtBack(gs, runs[0])
  {
    if |runs| <= 3 then
      var o := Reduce(gs, runs, 1);
      if o.Next? then Kept(o.state.groups, o.state.live, -1) else Kept(gs, [], -1)
    else
      var (l, ok) := Reserve(Lists(runs, 0, 0, []), 1);
      Kept(gs, l.runs, if l.oob == [] then -1 else l.oob[0].block)
  }

  lemma {:induction false} SplitFront(runs: seq<Run>)
    requires |runs| > 1 && AllPositive(runs)
    ensures Split(runs, 0, 0) == SplitResult(runs, 0, 0)
    ensures runs[0].len > 1 ==> Split(runs, 0, 1) == SplitResult(Cut(runs, 0, 1), 1, 0)
    ensures runs[0].len == 1 ==> Split(runs, 0, 1) == SplitResult(runs, 0, 1)
  {
    assert runs[0].len > 0 && runs[1].len > 0;
    assert Walk(runs, 0, 0) == (0, 0);
    assert runs[0].len > 1 ==> Walk(runs, 0, 1) == (0, 1);
    assert Walk(runs, 1, 0) == (1, 0);
    hide Cut;
  }

  lemma {:induction false} CutFront(runs: seq<Run>)
    requires |runs| > 0 && runs[0].len > 1
    ensures var cut := Cut(runs, 0, 1);
            && Cutout(cut, 0, 1) == [Back(runs[0], 1)] + runs[1..] && cut[0..1] == [Front(runs[0], 1)]
  {}

  /** With a first region of at least two blocks, its first block is set aside. */
  lemma {:induction false} KeepMany(gs: seq<Group>, runs: seq<Run>)
    requires |runs| > 3 && AllPositive(runs) && AtBack(gs, runs[0])
    ensures runs[0].len > 1 ==> Keep(gs, runs) == Kept(gs, [Back(runs[0], 1)] + runs[1..], runs[0].block)
    ensures runs[0].len == 1 ==> Keep(gs, runs) == Kept(gs, [runs[0]], runs[1].block)
    ensures Reserve(Lists(runs, 0, 0, []), 1).1 && Keep(gs, runs).groups == gs
    ensures runs[0].len > 1 ==> !Spans(Lists(runs, 0, 0, []), 1)
  {
    SplitFront(runs);
    if runs[0].len > 1 {
      CutFront(runs);
      assert [] + [Front(runs[0], 1)] == [Front(runs[0], 1)];
    } else {
      assert Cutout(runs, 1, |runs|) == [runs[0]];
      assert runs[1..|runs|][0] == runs[1];
    }
    hide Split, Cut, Walk, Cutout;
  }

  lemma {:induction false} KeepFew(gs: seq<Group>, runs: seq<Run>)
    requires 0 < |runs| <= 3 && AllPositive(runs) && AtBack(gs, runs[0])
    ensures runs[0].len > 1 ==> Keep(gs, runs).runs == [runs[0].(len := runs[0].len - 1)] + runs[1..]
    ensures runs[0].len == 1 ==> Keep(gs, runs).runs == []
    ensures Keep(gs, runs).leaf == -1 && Reduce(gs, runs, 1).Next?
  {}

  lemma {:induction false} TotalAtLeast(runs: seq<Run>)
    requires AllPositive(runs)
    ensures Total(runs) >= |runs|
    decreases |runs|
  {
    if runs != [] {
      assert AllPositive(runs[1..]);
      TotalAtLeast(runs[1..]);
    }
  }

  lemma {:induction false} Shortened(r: Run, s: Run, rest: seq<Run>)
    requires s.len + 1 == r.len
    ensures Total([s] + rest) + 1 == Total([r] + rest) && Total([r]) == r.len && Total([]) == 0
  {
    TotalCons(r, rest);
    TotalCons(s, rest);
    TotalCons(r, []);
    assert [r] + [] == [r];
  }

  lemma {:induction false} TotalKept(gs: seq<Group>, runs: seq<Run>)
    requires |runs| > 0 && AllPositive(runs) && AtBack(gs, runs[0])
    ensures Total(Keep(gs, runs).runs)
         == if runs[0].len > 1 then Total(runs) - 1 else if |runs| > 3 then 1 else 0
  {
    assert runs == [runs[0]] + runs[1..] && runs[0].len > 0;
    var s := if |runs| > 3 then Back(runs[0], 1) else runs[0].(len := runs[0].len - 1);
    assert s.len + 1 == runs[0].len;
    hide Keep, Total, AllPositive;
    Shortened(runs[0], s, runs[1..]);
    if |runs| > 3 {
      KeepMany(gs, runs);
    } else {
      KeepFew(gs, runs);
    }
  }

  /** The kept regions hold exactly the file's blocks when, and only when, the first region had two or more. */
  lemma {:induction false} KeptTotal(gs: seq<Group>, runs: seq<Run>, blocks: nat)
    requires |runs| > 0 && AllPositive(runs) && AtBack(gs, runs[0]) && Total(runs) == blocks + 1 && blocks > 0
    ensures var kept := Keep(gs, runs).runs; Prefix(kept, |kept|) == blocks <==> runs[0].len >= 2
  {
    var kept := Keep(gs, runs).runs;
    PrefixIsTotal(kept, 0);
    assert kept[0..] == kept && runs[0].len > 0;
    TotalAtLeast(runs);
    TotalKept(gs, runs);
    hide Keep, Total, Prefix, AllPositive;
  }

  /** The kept regions stay apart from one another, and from the extent block. */
  lemma {:induction false} KeptDisjoint(gs: seq<Group>, runs: seq<Run>)
    requires |runs| > 0 && AllPositive(runs) && AtBack(gs, runs[0]) && AllDisjoint(runs) && runs[0].len > 1
    ensures AllDisjoint(Keep(gs, runs).runs)
    ensures var kept := Keep(gs, runs);
            kept.leaf >= 0 ==> forall i :: 0 <= i < |kept.runs| ==> !InRun(kept.runs[i], kept.leaf)
  {
    var kept := Keep(gs, runs).runs;
    if |runs| > 3 {
      KeepMany(gs, runs);
    } else {
      KeepFew(gs, runs);
    }
    hide Keep;
    forall i, j | 0 <= i < j < |kept|
      ensures Disjoint(kept[i], kept[j])
    {
      assert Disjoint(runs[i], runs[j]);
    }
    if |runs| > 3 {
      forall i | 0 <= i < |kept|
        ensures !InRun(kept[i], runs[0].block)
      {
        assert i > 0 ==> Disjoint(runs[0], runs[i]);
      }
    }
  }
}
