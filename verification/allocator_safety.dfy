/** From block_allocator_init on: where live blocks can lie, and what the free counts say. */
module AllocatorSafety {
  import opened Words
  import opened Bitmaps
  import opened Geometry
  import opened AllocatorSpec
  import opened AllocatorRuns
  import opened BlockGroups
  import opened Allocators

  // ----- the start -----

  ghost function ShapeOf(g: Group): Shape { Shape(g.first, g.start, g.start + g.free) }

  /** The fixed part of the groups as init_bg leaves them. */
  ghost function Shapes(info: Info, aux: Aux): (shapes: seq<Shape>)
    requires Buildable(info, aux)
    ensures |shapes| == aux.groups
  {
    seq(aux.groups, i requires 0 <= i < aux.groups => ShapeOf(InitialGroup(info, aux, i)))
  }

  lemma ShapeBounds(info: Info, aux: Aux, i: nat)
    requires i < aux.groups && Buildable(info, aux)
    ensures var s, header, size := ShapeOf(InitialGroup(info, aux, i)), GroupHeader(info, aux, i), GroupSize(info, aux, i);
            && s.first == FirstBlock(info, aux, i)
            && header <= s.header <= s.end <= info.blocksPerGroup
            && (s.header < s.end ==> s.header == header && s.end == size)
            && size <= info.blocksPerGroup && s.first + size <= aux.lenBlocks
  {
    Sizes(info, aux, i);
    hide GroupHeader, FirstBlock, Buildable;
  }

  lemma FreshSafe(info: Info, aux: Aux)
    requires Buildable(info, aux)
    ensures Safe(InitialGroups(info, aux), [], Shapes(info, aux))
  {
    var shapes := Shapes(info, aux);
    forall i, j | 0 <= i < j < aux.groups
      ensures shapes[i].first + shapes[i].end <= shapes[j].first
    {
      ShapeBounds(info, aux, i);
      ShapeBounds(info, aux, j);
      FirstsApart(info, aux, i, j);
    }
    hide InitialGroup, Buildable;
  }

  lemma FirstsApart(info: Info, aux: Aux, i: nat, j: nat)
    requires i < j
    ensures FirstBlock(info, aux, i) + info.blocksPerGroup <= FirstBlock(info, aux, j)
  {
    MulGap(i, j, info.blocksPerGroup);
  }

  /** What any run of requests leaves live: no block twice, none in a header, none past the end of the device. */
  lemma LiveOnDevice(info: Info, aux: Aux, requests: seq<Request>, j: nat, block: nat)
    requires Buildable(info, aux)
    requires var o := ServeAll(State(InitialGroups(info, aux), []), requests);
             o.Next? && j < |o.state.live| && InRun(o.state.live[j], block)
    ensures var live := ServeAll(State(InitialGroups(info, aux), []), requests).state.live;
            && (forall k :: 0 <= k < |live| && k != j ==> !InRun(live[k], block))
            && live[j].bg < aux.groups
            && FirstBlock(info, aux, live[j].bg) + GroupHeader(info, aux, live[j].bg) <= block < aux.lenBlocks
            && (forall i :: 0 <= i < aux.groups ==>
                  !(FirstBlock(info, aux, i) <= block < FirstBlock(info, aux, i) + GroupHeader(info, aux, i)))
  {
    var shapes := Shapes(info, aux);
    var s := ServeAll(State(InitialGroups(info, aux), []), requests).state;
    FreshSafe(info, aux);
    RunSafe(State(InitialGroups(info, aux), []), requests, shapes);
    LiveBlock(s.groups, s.live, shapes, j, block);
    hide ServeAll, Safe, InitialGroup, GroupHeader, GroupSize, FirstBlock, Buildable;
    var bg := s.live[j].bg;
    ShapeBounds(info, aux, bg);
    forall i | 0 <= i < aux.groups
      ensures !(FirstBlock(info, aux, i) <= block < FirstBlock(info, aux, i) + GroupHeader(info, aux, i))
    {
      NotInHeader(info, aux, bg, i, block);
    }
  }

  lemma NotInHeader(info: Info, aux: Aux, bg: nat, i: nat, block: int)
    requires Buildable(info, aux) && bg < aux.groups && i < aux.groups
    requires FirstBlock(info, aux, bg) + GroupHeader(info, aux, bg) <= block
    requires block < FirstBlock(info, aux, bg) + info.blocksPerGroup
    ensures !(FirstBlock(info, aux, i) <= block < FirstBlock(info, aux, i) + GroupHeader(info, aux, i))
  {
    Sizes(info, aux, i);
    if i < bg {
      FirstsApart(info, aux, i, bg);
    } else if bg < i {
      FirstsApart(info, aux, bg, i);
    }
    hide Buildable, FirstBlock, GroupHeader, GroupSize;
  }

  // ----- the published counts -----

  function FreeTotal(gs: seq<Group>): nat {
    if gs == [] then 0 else FreeTotal(gs[..|gs| - 1]) + gs[|gs| - 1].free
  }

  /** The clear bits of the first k bitmaps. */
  ghost function ClearTotal(a: Allocator, k: nat): nat
    requires a.Valid() && k <= |a.groups|
    reads a.Repr()
  {
    if k == 0 then 0 else ClearTotal(a, k - 1) + ClearBits(a, k - 1)
  }

  ghost function ClearBits(a: Allocator, i: nat): nat
    requires a.Valid() && i < |a.groups|
    reads a.Repr()
  {
    GroupValid(a, i);
    CountClear(a.groups[i].blockBitmap[..], a.n)
  }

  lemma GroupValid(a: Allocator, i: nat)
    requires a.Valid() && i < |a.groups|
    ensures a.groups[i].Valid(a.n) && a.n <= 8 * a.groups[i].blockBitmap.Length
  {}

  /** The counter of a group is the number of clear bits in its bitmap. */
  lemma FreeIsClear(a: Allocator, i: nat)
    requires a.Valid() && i < |a.groups|
    ensures a.groups[i].freeBlocks == ClearBits(a, i) <= a.n
  {
    var g := a.groups[i];
    GroupValid(a, i);
    RunCount(g.blockBitmap[..], a.n, g.firstFreeBlock, g.freeBlocks, a.n);
    hide CountClear, IsSet;
  }

  /** ext4_update_free: 16-bit counts in the descriptors, their 32-bit sum in the superblock. */
  method UpdateFree(a: Allocator) returns (counts: seq<u16>, total: u32)
    requires a.Valid()
    ensures |counts| == |a.groups| && forall i :: 0 <= i < |counts| ==> counts[i] == ClearBits(a, i) % 0x1_0000
    ensures total == ClearTotal(a, |a.groups|) % TWO32
  {
    counts, total := [], 0;
    hide Allocator.Valid, ClearBits;
    for i := 0 to |a.groups|
      invariant |counts| == i && forall k :: 0 <= k < i ==> counts[k] == ClearBits(a, k) % 0x1_0000
      invariant total == ClearTotal(a, i) % TWO32
    {
      FreeIsClear(a, i);
      var free := a.groups[i].freeBlocks;
      counts := counts + [free % 0x1_0000];
      SumWraps(ClearTotal(a, i), free);
      total := (total + free) % TWO32;
    }
  }

  lemma SumWraps(x: nat, y: nat)
    ensures (x % TWO32 + y) % TWO32 == (x + y) % TWO32
  {}

  // ----- how many blocks there are -----

  ghost function HeaderTotal(info: Info, aux: Aux, k: nat): nat {
    if k == 0 then 0 else HeaderTotal(info, aux, k - 1) + GroupHeader(info, aux, k - 1)
  }

  ghost function FirstGroups(info: Info, aux: Aux, k: nat): seq<Group>
    requires Buildable(info, aux) && k <= aux.groups
  {
    InitialGroups(info, aux)[..k]
  }

  lemma FirstGroupsMore(info: Info, aux: Aux, k: nat)
    requires Buildable(info, aux) && k < aux.groups
    ensures FreeTotal(FirstGroups(info, aux, k + 1))
         == FreeTotal(FirstGroups(info, aux, k)) + GroupSize(info, aux, k) - GroupHeader(info, aux, k)
  {
    Sizes(info, aux, k);
    var gs := FirstGroups(info, aux, k + 1);
    assert gs[..k] == FirstGroups(info, aux, k) && gs[k] == InitialGroup(info, aux, k);
    hide GroupSize, GroupHeader, Buildable;
  }

  /** Up to group k the groups cover the device without gap. */
  lemma CoveredMore(info: Info, aux: Aux, k: nat)
    requires Buildable(info, aux) && k < aux.groups
    ensures Min(FirstBlock(info, aux, k + 1), aux.lenBlocks)
         == Min(FirstBlock(info, aux, k), aux.lenBlocks) + GroupSize(info, aux, k)
  {
    Sizes(info, aux, k);
    NextFirst(info, aux, k);
    hide Buildable, FirstBlock, GroupHeader;
  }

  lemma FreeOfNone(info: Info, aux: Aux)
    requires Buildable(info, aux) && aux.firstDataBlock <= aux.lenBlocks
    ensures FreeTotal(FirstGroups(info, aux, 0)) == 0 == HeaderTotal(info, aux, 0)
    ensures Min(FirstBlock(info, aux, 0), aux.lenBlocks) == aux.firstDataBlock
  {
    hide Buildable;
  }

  lemma HeaderMore(info: Info, aux: Aux, k: nat)
    ensures HeaderTotal(info, aux, k + 1) == HeaderTotal(info, aux, k) + GroupHeader(info, aux, k)
  {}

  lemma {:induction false} FreeOfFirst(info: Info, aux: Aux, k: nat)
    requires Buildable(info, aux) && k <= aux.groups && aux.firstDataBlock <= aux.lenBlocks
    ensures FreeTotal(FirstGroups(info, aux, k))
         == Min(FirstBlock(info, aux, k), aux.lenBlocks) - aux.firstDataBlock - HeaderTotal(info, aux, k)
  {
    hide *;
    if k == 0 {
      FreeOfNone(info, aux);
    } else {
      FreeOfFirst(info, aux, k - 1);
      FirstGroupsMore(info, aux, k - 1);
      CoveredMore(info, aux, k - 1);
      HeaderMore(info, aux, k - 1);
    }
  }

  /** A fresh filesystem has every block free that is not in a header. */
  lemma FreshFree(info: Info, aux: Aux)
    requires Buildable(info, aux) && aux.firstDataBlock <= aux.lenBlocks
    ensures FreeTotal(InitialGroups(info, aux)) + HeaderTotal(info, aux, aux.groups) + aux.firstDataBlock == aux.lenBlocks
  {
    FreeOfFirst(info, aux, aux.groups);
    CoverAll(info, aux);
    assert FirstGroups(info, aux, aux.groups) == InitialGroups(info, aux);
    hide Buildable, FirstBlock, GroupHeader, FreeTotal, InitialGroups;
  }

  lemma CoverAll(info: Info, aux: Aux)
    requires Buildable(info, aux)
    ensures aux.lenBlocks <= FirstBlock(info, aux, aux.groups)
  {
    hide FirstBlock, GroupHeader, GroupSize;
  }

  // ----- conservation -----

  lemma {:induction false} FreeUpdate(gs: seq<Group>, i: nat, g: Group)
    requires i < |gs|
    ensures FreeTotal(gs[i := g]) == FreeTotal(gs) - gs[i].free + g.free
    decreases |gs|
  {
    var hs, n := gs[i := g], |gs| - 1;
    if i < n {
      FreeUpdate(gs[..n], i, g);
      assert hs[..n] == gs[..n][i := g];
    } else {
      assert hs[..n] == gs[..n];
    }
  }

  /** What the groups lose the runs gain. */
  lemma {:induction false} TakenConserves(gs: seq<Group>, runs: seq<Run>, after: seq<Group>)
    requires Taken(gs, runs, after)
    ensures FreeTotal(gs) == FreeTotal(after) + Total(runs)
    decreases |runs|
  {
    if runs != [] {
      var r := runs[0];
      FreeUpdate(gs, r.bg, Grab(gs[r.bg], r.len));
      TakenConserves(GrabAt(gs, r.bg, r.len), runs[1..], after);
    }
    hide FreeTotal;
  }

  /** A successful allocation of len blocks leaves len fewer. */
  lemma AllocationConserves(gs: seq<Group>, len: nat)
    requires DoAllocate(gs, len).Done?
    ensures FreeTotal(DoAllocate(gs, len).groups) + len == FreeTotal(gs)
  {
    AllocationTakes(gs, len);
    TakenConserves(gs, AllocationRuns(gs, len), DoAllocate(gs, len).groups);
    hide DoAllocate, AllocationRuns, FreeTotal, Taken, Total;
  }

  lemma {:induction false} TotalAppend(a: seq<Run>, b: seq<Run>)
    ensures Total(a + b) == Total(a) + Total(b)
    decreases |a|
  {
    if a == [] {
      assert a + b == b;
    } else {
      TotalAppend(a[1..], b);
      assert (a + b)[1..] == a[1..] + b;
    }
  }

  /** An allocation cut back by less than its first region leaves as many fewer blocks as the list still holds. */
  lemma ReducedConserves(gs: seq<Group>, len: nat, back: nat)
    requires var o := DoAllocate(gs, len); o.Done? && (|o.runs| > 0 && AtBack(o.groups, o.runs[0]) ==> back < o.runs[0].len)
    ensures var o := DoAllocate(gs, len);
            && |o.runs| > 0 && AtBack(o.groups, o.runs[0])
            && Reduce(o.groups, o.runs, back).Next?
            && var s := Reduce(o.groups, o.runs, back).state;
               FreeTotal(s.groups) + Total(s.live) == FreeTotal(gs) && Total(s.live) == len - back
  {
    var o := DoAllocate(gs, len);
    FirstRunAtBack(gs, len);
    AllocationConserves(gs, len);
    AllocationTakes(gs, len);
    var r := o.runs[0];
    FreeUpdate(o.groups, r.bg, GiveBack(o.groups[r.bg], back));
    TotalCons(r, o.runs[1..]);
    TotalCons(r.(len := r.len - back), o.runs[1..]);
    assert [r] + o.runs[1..] == o.runs;
    hide DoAllocate, FreeTotal, Total, AllocationRuns, Taken;
  }

  lemma SpillRunsStep(gs: seq<Group>, len: nat)
    requires len > 0
    ensures var u := FirstUntouched(gs, 0);
            && (u == |gs| || gs[u].free == 0 ==> SpillRuns(gs, len) == [])
            && (u < |gs| && 0 < gs[u].free < len ==>
                  SpillRuns(gs, len)
                  == [FrontRun(gs[u], gs[u].free, u)] + SpillRuns(GrabAt(gs, u, gs[u].free), len - gs[u].free))
  {
    PartialIs(gs, len);
    hide Partial;
  }

  /** A request that fails, or never ends, keeps reserved every block it could reach. */
  lemma {:induction false} LostBlocks(gs: seq<Group>, len: nat)
    requires len > 0 && !Spill(gs, len).Done?
    ensures Total(SpillRuns(gs, len)) == Reach(gs) && FreeTotal(Spill(gs, len).groups) + Reach(gs) == FreeTotal(gs)
    decreases len
  {
    var u := FirstUntouched(gs, 0);
    SpillStep(gs, len);
    SpillRunsStep(gs, len);
    assert gs[0..] == gs;
    ReachAfterFill(gs, 0);
    SpillTakes(gs, len);
    TakenConserves(gs, SpillRuns(gs, len), Spill(gs, len).groups);
    if u < |gs| && gs[u].free > 0 {
      var after, r := GrabAt(gs, u, gs[u].free), FrontRun(gs[u], gs[u].free, u);
      assert after[0..] == after;
      LostBlocks(after, len - gs[u].free);
      TotalCons(r, SpillRuns(after, len - gs[u].free));
    }
    hide Spill, SpillRuns, Reach, FreeTotal, Contiguous, FirstUntouched, Taken;
  }

  // ----- conservation over whole runs -----

  /** The blocks one request leaves reserved without any list that holds them: all it could reach when it fails, and the
      regions behind the first one when exactly the first one is given back. */
  function Lost(s: State, request: Request): nat {
    if request.OneBlock? then 0
    else
      var o := DoAllocate(s.groups, request.len);
      if o.Failed? then Reach(s.groups)
      else if o.Done? && |o.runs| > 0 && request.back == o.runs[0].len > 0 then Total(o.runs[1..])
      else 0
  }

  function LostAll(s: State, requests: seq<Request>): nat
    decreases |requests|
  {
    if requests == [] || !Serve(s, requests[0]).Next? then 0
    else Lost(s, requests[0]) + LostAll(Serve(s, requests[0]).state, requests[1..])
  }

  lemma {:induction false} FailureLoses(gs: seq<Group>, len: nat)
    requires DoAllocate(gs, len).Failed?
    ensures FreeTotal(DoAllocate(gs, len).groups) + Reach(gs) == FreeTotal(gs)
  {
    if len == 0 {
      assert gs == [];
    } else {
      LostBlocks(gs, len);
    }
    hide Spill, FreeTotal, Reach;
  }

  lemma {:induction false} GivenBack(gs: seq<Group>, runs: seq<Run>, back: nat)
    requires |runs| > 0 && AtBack(gs, runs[0]) && Reduce(gs, runs, back).Next?
    ensures var s := Reduce(gs, runs, back).state;
            && back <= runs[0].len
            && FreeTotal(s.groups) + Total(s.live) + (if back == runs[0].len > 0 then Total(runs[1..]) else 0)
               == FreeTotal(gs) + Total(runs)
  {
    var r := runs[0];
    FreeUpdate(gs, r.bg, GiveBack(gs[r.bg], back));
    TotalCons(r, runs[1..]);
    assert [r] + runs[1..] == runs;
    if back < r.len {
      TotalCons(r.(len := r.len - back), runs[1..]);
    }
    assert Total([]) == 0;
    hide FreeTotal, Total;
  }

  lemma {:induction false} OneBlockConserves(gs: seq<Group>)
    requires Contiguous(gs, 1).Done?
    ensures FreeTotal(Contiguous(gs, 1).groups) + Total(Contiguous(gs, 1).runs) == FreeTotal(gs)
  {
    ContiguousTakes(gs, 1);
    TakenConserves(gs, Contiguous(gs, 1).runs, Contiguous(gs, 1).groups);
    hide Contiguous, FreeTotal, Total, Taken;
  }

  lemma {:induction false} BlocksConserve(s: State, len: nat, back: nat)
    requires Serve(s, Blocks(len, back)).Next?
    ensures var next := Serve(s, Blocks(len, back)).state;
            FreeTotal(next.groups) + Total(next.live) + Lost(s, Blocks(len, back)) == FreeTotal(s.groups) + Total(s.live)
  {
    var o := DoAllocate(s.groups, len);
    if o.Failed? {
      FailureLoses(s.groups, len);
    } else {
      FirstRunAtBack(s.groups, len);
      AllocationTakes(s.groups, len);
      AllocationConserves(s.groups, len);
      GivenBack(o.groups, o.runs, back);
      TotalAppend(s.live, Reduce(o.groups, o.runs, back).state.live);
    }
    hide DoAllocate, FreeTotal, Total, Reach, Reduce, AtBack, AllocationRuns, Taken;
  }

  lemma {:induction false} ServeConserves(s: State, request: Request)
    requires Serve(s, request).Next?
    ensures var next := Serve(s, request).state;
            FreeTotal(next.groups) + Total(next.live) + Lost(s, request) == FreeTotal(s.groups) + Total(s.live)
  {
    if request.OneBlock? {
      if Contiguous(s.groups, 1).Done? {
        OneBlockConserves(s.groups);
        TotalAppend(s.live, Contiguous(s.groups, 1).runs);
      }
    } else {
      BlocksConserve(s, request.len, request.back);
    }
    hide Contiguous, FreeTotal, Total, DoAllocate, Reduce;
  }

  /** Over any run of requests every block stays accounted for: what was free or held is free, held, or lost. */
  lemma {:induction false} ServedConserves(s: State, requests: seq<Request>)
    requires ServeAll(s, requests).Next?
    ensures var end := ServeAll(s, requests).state;
            FreeTotal(end.groups) + Total(end.live) + LostAll(s, requests) == FreeTotal(s.groups) + Total(s.live)
    decreases |requests|
  {
    if requests != [] {
      ServeConserves(s, requests[0]);
      ServedConserves(Serve(s, requests[0]).state, requests[1..]);
    }
    hide Serve, FreeTotal, Total, Lost;
  }

  /** From a fresh filesystem on, the free, the held, the lost and the header blocks add up to the device. */
  lemma {:induction false} DeviceConserved(info: Info, aux: Aux, requests: seq<Request>)
    requires Buildable(info, aux) && aux.firstDataBlock <= aux.lenBlocks
    requires ServeAll(State(InitialGroups(info, aux), []), requests).Next?
    ensures var start := State(InitialGroups(info, aux), []);
            var end := ServeAll(start, requests).state;
            FreeTotal(end.groups) + Total(end.live) + LostAll(start, requests) + HeaderTotal(info, aux, aux.groups)
              + aux.firstDataBlock == aux.lenBlocks
  {
    assert Total([]) == 0;
    hide *;
    FreshFree(info, aux);
    ServedConserves(State(InitialGroups(info, aux), []), requests);
  }
}
