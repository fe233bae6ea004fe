/** The block allocator: the array of block groups, the searches over it, and linked lists of regions. */
module Allocators {
  import opened Words
  import opened Bitmaps
  import opened Geometry
  import opened AllocatorSpec
  import opened BlockGroups
  import opened Regions
  import opened AllocatorRuns

  class Allocator {
    const groups: seq<BlockGroup>
    ghost const n: nat    // the bits of a bitmap that stand for blocks

    ghost predicate Separate() {
      forall i, j :: 0 <= i < j < |groups| ==> groups[i] != groups[j] && groups[i].blockBitmap != groups[j].blockBitmap
    }

    ghost function Repr(): set<object> {
      (set i | 0 <= i < |groups| :: groups[i] as object) + (set i | 0 <= i < |groups| :: groups[i].blockBitmap as object)
    }

    ghost predicate Valid()
      reads Repr()
    {
      Separate() && forall i :: 0 <= i < |groups| ==> groups[i].Valid(n)
    }

    /** The counters of all the groups. */
    ghost function View(): (gs: seq<Group>)
      reads Repr()
      ensures |gs| == |groups|
    {
      seq(|groups|, i requires 0 <= i < |groups| reads Repr() => groups[i].View())
    }

    /** block_allocator_init */
    constructor (info: Info, aux: Aux)
      requires Buildable(info, aux)
      ensures Valid() && fresh(Repr()) && n == info.blocksPerGroup && View() == InitialGroups(info, aux)
      ensures |groups| == aux.groups && forall k :: 0 <= k < |groups| ==> groups[k].blockBitmap.Length == info.blockSize
    {
      hide AllBuilt, InitialGroups, Buildable;
      var built := BuildGroups(info, aux);
      groups := built;
      n := info.blocksPerGroup;
      new;
      Built(info, aux);
    }

    lemma Built(info: Info, aux: Aux)
      requires Buildable(info, aux) && AllBuilt(info, aux, groups) && |groups| == aux.groups && n == info.blocksPerGroup
      ensures Valid() && View() == InitialGroups(info, aux)
    {
      hide BlockGroup.Valid, BlockGroup.View, InitialGroup;
    }

    /** ext4_allocate_blocks_from_block_group */
    method AllocateFromGroup(len: u32, i: nat) returns (block: u32)
      requires Valid() && i < |groups|
      modifies Repr()
      ensures Valid()
      ensures if len <= old(View())[i].free
              then block == old(View())[i].first + old(View())[i].start && block != ALLOCATE_FAILED
                   && View() == GrabAt(old(View()), i, len)
              else block == ALLOCATE_FAILED && View() == old(View())
    {
      ghost var gs := View();
      hide BlockGroup.Valid, BlockGroup.View;
      block := groups[i].Allocate(len, n);
      forall j | 0 <= j < |groups|
        ensures groups[j].Valid(n) && (j != i ==> groups[j].View() == gs[j])
      {
        assert j != i ==> groups[j] != groups[i] && groups[j].blockBitmap != groups[i].blockBitmap;
      }
      assert if len <= gs[i].free then View() == GrabAt(gs, i, len) else View() == gs;
    }

    /** ext4_allocate_contiguous_blocks: first fit over the groups. */
    method AllocateContiguous(len: u32) returns (reg: Region?)
      requires Valid()
      modifies Repr()
      ensures Valid()
      ensures var o := Contiguous(old(View()), len);
              View() == o.groups && (reg != null <==> o.Done?) && (reg != null ==> fresh(reg) && Alone(reg, o.runs))
    {
      hide Allocator.Valid, Allocator.View, Contiguous, Searching, Alone, GrabAt;
      ghost var gs := View();
      SearchStarts(gs, len);
      for i := 0 to |groups|
        invariant Valid() && View() == gs && Searching(gs, len, i)
      {
        SearchGoesOn(gs, len, i);
        var block := AllocateFromGroup(len, i);
        if block != ALLOCATE_FAILED {
          reg := new Region(block, len, i);
          SearchSucceeds(gs, len, i);
          LoneRegion(reg);
          return reg;
        }
      }
      SearchFails(gs, len);
      reg := null;
    }

    /** allocate_block */
    method AllocateBlock() returns (block: u32)
      requires Valid()
      modifies Repr()
      ensures Valid()
      ensures var o := Contiguous(old(View()), 1);
              View() == o.groups
              && (block != ALLOCATE_FAILED <==> o.Done?) && (o.Done? ==> |o.runs| == 1 && block == o.runs[0].block)
    {
      hide Allocator.Valid, Allocator.View, Contiguous, Searching, GrabAt;
      ghost var gs := View();
      SearchStarts(gs, 1);
      for i := 0 to |groups|
        invariant Valid() && View() == gs && Searching(gs, 1, i)
      {
        SearchGoesOn(gs, 1, i);
        block := AllocateFromGroup(1, i);
        if block != ALLOCATE_FAILED {
          SearchSucceeds(gs, 1, i);
          return block;
        }
      }
      SearchFails(gs, 1);
      block := ALLOCATE_FAILED;
    }

    /** The first untouched group, as the loop of ext4_allocate_partial finds it. */
    method FindUntouched() returns (i: nat)
      requires Valid()
      ensures i == FirstUntouched(View(), 0)
    {
      hide Allocator.Valid;
      i := 0;
      while i < |groups|
        invariant 0 <= i <= |groups| && FirstUntouched(View(), 0) == FirstUntouched(View(), i)
      {
        assert View()[i].used == groups[i].dataBlocksUsed;
        if groups[i].dataBlocksUsed == 0 {
          return;
        }
        i := i + 1;
      }
    }

    /** free_blocks on one group */
    method GiveBackTo(i: nat, len: u32)
      requires Valid() && i < |groups| && len <= View()[i].start
      modifies Repr()
      ensures Valid() && View() == GiveBackAt(old(View()), i, len)
    {
      ghost var gs := View();
      assert gs[i].start == groups[i].firstFreeBlock;
      hide BlockGroup.Valid, BlockGroup.View;
      groups[i].FreeBlocks(len, n);
      forall j | 0 <= j < |groups|
        ensures groups[j].Valid(n) && (j != i ==> groups[j].View() == gs[j])
      {
        assert j != i ==> groups[j] != groups[i] && groups[j].blockBitmap != groups[i].blockBitmap;
      }
      assert View() == GiveBackAt(gs, i, len);
    }

    /** get_free_blocks */
    method GetFreeBlocks(i: nat) returns (free: u32)
      requires Valid() && i < |groups|
      ensures free == View()[i].free
    {
      free := groups[i].freeBlocks;
    }

    /** Takes all the free blocks of one group. */
    method FillGroup(i: nat) returns (reg: Region)
      requires Valid() && i < |groups|
      modifies Repr()
      ensures Valid() && fresh(reg)
      ensures var gs := old(View());
              Alone(reg, [Run(gs[i].first + gs[i].start, gs[i].free, i)]) && View() == GrabAt(gs, i, gs[i].free)
    {
      var available := GetFreeBlocks(i);
      hide Allocator.Valid, Allocator.View, Alone, GrabAt;
      var block := AllocateFromGroup(available, i);
      reg := new Region(block, available, i);
      LoneRegion(reg);
    }

    /** ext4_allocate_partial */
    method AllocatePartial(len: u32) returns (reg: Region?)
      requires Valid()
      modifies Repr()
      ensures Valid()
      ensures var o := Partial(old(View()), len);
              View() == o.groups && (reg != null <==> o.Done?) && (reg != null ==> fresh(reg) && Alone(reg, o.runs))
    {
      hide Allocator.Valid, Allocator.View, Partial, Contiguous, Alone, GrabAt, FirstUntouched;
      PartialCases(View(), len);
      var i := FindUntouched();
      if i == |groups| {
        return null;
      }
      var free := GetFreeBlocks(i);
      if len <= free {
        reg := AllocateContiguous(len);
      } else {
        reg := FillGroup(i);
      }
    }

    /** One more region of a request that fits nowhere as a whole. */
    method SpillMore(first: Region?, prev: Region?, len: u32, ghost nodes: seq<Region>, ghost runs: seq<Run>,
                     ghost gs: seq<Group>, ghost total: nat)
      returns (reg: Region?, newFirst: Region?, ghost newNodes: seq<Region>, ghost newRuns: seq<Run>)
      requires Valid() && len > 0 && Spilling(gs, total, runs, View(), len) && Growing(first, prev, nodes, runs)
      modifies Repr(), nodes
      ensures Valid() && forall k :: 0 <= k < |newNodes| ==> fresh(newNodes[k]) || newNodes[k] in nodes
      ensures reg == null ==> Spill(gs, total) == Failed(View())
      ensures reg != null && reg.len == 0 ==> Spill(gs, total) == Hang(View())
      ensures reg != null && reg.len > 0 ==>
                reg.len <= len && newNodes != [] && Spilling(gs, total, newRuns, View(), len - reg.len)
                && Growing(newFirst, reg, newNodes, newRuns)
    {
      ghost var before := View();
      hide Allocator.Valid, Allocator.View, Partial, Spill, Alone, Growing, Spilling, PrependAll;
      newFirst, newNodes, newRuns := first, nodes, runs;
      reg := AllocatePartial(len);
      SpillGoesOn(gs, total, runs, before, len);
      if reg != null {
        ghost var taken := Partial(before, len).runs;
        AloneIs(reg, taken);
        if reg.len > 0 {
          newFirst, newNodes, newRuns := AppendNode(first, prev, reg, nodes, runs, taken);
        }
      }
    }

    /** ext4_allocate_multiple_contiguous_blocks: regions until the request is met; hang reports a region of no
        blocks, after which the source's loop never ends. */
    method AllocateMultiple(total: u32) returns (first: Region?, hang: bool, ghost nodes: seq<Region>)
      requires Valid() && total > 0
      modifies Repr()
      ensures Valid() && fresh(nodes)
      ensures Spill(old(View()), total).groups == View() && Allocated(Spill(old(View()), total), first, hang, nodes)
    {
      hide *;
      ghost var gs, runs := View(), [];
      first, hang, nodes := null, false, [];
      var prev: Region?, len: u32 := null, total;
      SpillStarts(gs, total);
      EmptyList();
      while len > 0
        invariant Valid() && fresh(nodes) && Spilling(gs, total, runs, View(), len)
        invariant Growing(first, prev, nodes, runs) && 0 <= len <= total && (nodes == [] ==> len == total)
        decreases len
      {
        var reg;
        reg, first, nodes, runs := SpillMore(first, prev, len, nodes, runs, gs, total);
        if reg == null {
          NoneAllocated(Spill(gs, total), [], false);
          return null, false, [];
        }
        if reg.len == 0 {
          NoneAllocated(Spill(gs, total), [], true);
          return null, true, [];
        }
        prev := reg;
        len := len - reg.len;
      }
      SpillEnds(gs, total, runs, View());
      GrownIsList(first, prev, nodes, runs, View());
    }

    /** do_allocate */
    method DoAllocate(len: u32) returns (reg: Region?, hang: bool, ghost nodes: seq<Region>)
      requires Valid()
      modifies Repr()
      ensures Valid() && fresh(nodes)
      ensures var o := AllocatorSpec.DoAllocate(old(View()), len); View() == o.groups && Allocated(o, reg, hang, nodes)
    {
      hide Allocator.Valid, Allocator.View, Contiguous, Spill, Alone, IsList;
      ghost var gs := View();
      ContiguousNeverHangs(gs, len);
      hang, nodes := false, [];
      reg := AllocateContiguous(len);
      if reg != null {
        nodes := [reg];
        SingleList(reg, Contiguous(gs, len).runs);
      } else if len > 0 {
        reg, hang, nodes := AllocateMultiple(len);
      }
    }

    /** allocate_blocks: the last pointer is set to the first region. */
    method AllocateBlocks(len: u32) returns (alloc: BlockAllocation?, hang: bool)
      requires Valid()
      modifies Repr()
      ensures Valid()
      ensures var o := AllocatorSpec.DoAllocate(old(View()), len);
              View() == o.groups && (hang <==> o.Hang?) && (alloc != null <==> o.Done?)
              && (alloc != null ==> Fresh(alloc, o.runs) && fresh(alloc) && fresh(alloc.list) && fresh(alloc.list.nodes)
                                    && fresh(alloc.oobList) && fresh(alloc.oobList.nodes))
    {
      hide Allocator.Valid, Allocator.View, AllocatorSpec.DoAllocate, IsList;
      var reg, stuck, nodes := DoAllocate(len);
      if reg == null {
        return null, stuck;
      }
      hang := false;
      alloc := new BlockAllocation();
      alloc.list.first, alloc.list.last, alloc.list.iter := reg, reg, reg;
      alloc.list.partialIter := 0;
      alloc.list.nodes := nodes;
    }


    /** One pass of the loop of reduce_allocation: the blocks still to give back. */
    method ReducePass(alloc: BlockAllocation, len: u32, ghost runs: seq<Run>) returns (left: u32)
      requires Valid() && Fresh(alloc, runs) && runs != [] && AtBack(View(), runs[0]) && len > 0
      modifies Repr(), alloc.list, alloc.list.nodes
      ensures Valid()
      ensures var o := Reduce(old(View()), runs, len);
              if left == 0 then o.Next? && View() == o.state.groups && Fresh(alloc, o.state.live)
              else o.Crash? && alloc.list.last == null
    {
      FirstIs(alloc, runs);
      ReduceIs(View(), runs, len);
      var last := alloc.list.last;
      hide *;
      if last.len > len {
        ReduceTail(alloc, last, len, runs);
        left := 0;
      } else {
        left := len - last.len;
        ReduceWhole(alloc, last, runs);
      }
    }

    method ReduceTail(alloc: BlockAllocation, last: Region, len: u32, ghost runs: seq<Run>)
      requires Valid() && Fresh(alloc, runs) && runs != [] && AtBack(View(), runs[0]) && len < runs[0].len
      requires last.View() == runs[0]
      modifies Repr(), alloc.list.nodes
      ensures Valid() && Fresh(alloc, [runs[0].(len := runs[0].len - len)] + runs[1..])
      ensures runs[0].bg < |old(View())| && len <= old(View())[runs[0].bg].start
      ensures View() == GiveBackAt(old(View()), runs[0].bg, len)
    {
      hide Allocator.Valid, Allocator.View, Fresh, GiveBackAt;
      GiveBackTo(last.bg, len);
      ShortenFirst(alloc, len, runs);
    }

    method ReduceWhole(alloc: BlockAllocation, last: Region, ghost runs: seq<Run>)
      requires Valid() && Fresh(alloc, runs) && runs != [] && AtBack(View(), runs[0]) && last.View() == runs[0]
      modifies Repr(), alloc.list
      ensures Valid() && Fresh(alloc, []) && alloc.list.last == null
      ensures runs[0].bg < |old(View())| && runs[0].len <= old(View())[runs[0].bg].start
      ensures View() == GiveBackAt(old(View()), runs[0].bg, runs[0].len)
    {
      FirstIs(alloc, runs);
      hide Allocator.Valid, Allocator.View, Fresh, GiveBackAt;
      GiveBackTo(last.bg, last.len);
      DropList(alloc);
    }

    /** reduce_allocation on an allocation whose last pointer is still at its first region: one pass of the loop ends
        it or empties the list; crash reports the null pointer a second pass would follow. */
    method ReduceAllocation(alloc: BlockAllocation, len: u32, ghost runs: seq<Run>) returns (crash: bool)
      requires Valid() && Fresh(alloc, runs) && runs != [] && AtBack(View(), runs[0])
      modifies Repr(), alloc.list, alloc.list.nodes
      ensures Valid()
      ensures var o := Reduce(old(View()), runs, len);
              (crash <==> o.Crash?) && (!crash ==> View() == o.state.groups && Fresh(alloc, o.state.live))
    {
      hide *;
      ReduceNothing(View(), runs);
      crash := false;
      var left := len;
      if left > 0 {
        left := ReducePass(alloc, left, runs);
        if left > 0 {
          crash := true;
        }
      }
    }

    // ----- whole runs -----

    /** One request against the groups; live are the regions handed out so far. */
    method Serve(request: Request, ghost live: seq<Run>) returns (ok: bool, ghost newLive: seq<Run>)
      requires Valid() && Fits32(request)
      modifies Repr()
      ensures Valid()
      ensures var o := AllocatorRuns.Serve(State(old(View()), live), request);
              (ok <==> o.Next?) && (ok ==> State(View(), newLive) == o.state)
    {
      match request
      case OneBlock => ok, newLive := ServeOne(live);
      case Blocks(len, back) => ok, newLive := ServeBlocks(len, back, live);
    }

    method ServeOne(ghost live: seq<Run>) returns (ok: bool, ghost newLive: seq<Run>)
      requires Valid()
      modifies Repr()
      ensures Valid() && ok
      ensures AllocatorRuns.Serve(State(old(View()), live), OneBlock) == Next(State(View(), newLive))
    {
      ghost var o := Contiguous(View(), 1);
      ContiguousNeverHangs(View(), 1);
      hide Allocator.Valid, Allocator.View, Contiguous;
      var block := AllocateBlock();
      ok, newLive := true, if o.Done? then live + o.runs else live;
    }

    method ServeBlocks(len: u32, back: u32, ghost live: seq<Run>) returns (ok: bool, ghost newLive: seq<Run>)
      requires Valid()
      modifies Repr()
      ensures Valid()
      ensures var o := AllocatorRuns.Serve(State(old(View()), live), Blocks(len, back));
              (ok <==> o.Next?) && (ok ==> State(View(), newLive) == o.state)
    {
      ghost var gs := View();
      ghost var o := AllocatorSpec.DoAllocate(gs, len);
      hide Allocator.Valid, Allocator.View, AllocatorSpec.DoAllocate, Reduce, Fresh, AtBack;
      newLive := live;
      var alloc, hang := AllocateBlocks(len);
      if alloc == null {
        return !hang, live;
      }
      FirstRunAtBack(gs, len);
      ghost var reduced := Reduce(View(), o.runs, back);
      ReduceEnds(View(), o.runs, back);
      var crash := ReduceAllocation(alloc, back, o.runs);
      ok := !crash;
      if ok {
        newLive := live + reduced.state.live;
      }
    }

    /** All the requests in order, up to one that crashes or never ends. */
    method ServeAll(requests: seq<Request>) returns (ok: bool, ghost live: seq<Run>)
      requires Valid() && forall k :: 0 <= k < |requests| ==> Fits32(requests[k])
      modifies Repr()
      ensures Valid()
      ensures var o := AllocatorRuns.ServeAll(State(old(View()), []), requests);
              (ok <==> o.Next?) && (ok ==> State(View(), live) == o.state)
    {
      ghost var all := AllocatorRuns.ServeAll(State(View(), []), requests);
      hide Allocator.Valid, Allocator.View, AllocatorRuns.Serve;
      live := [];
      for i := 0 to |requests|
        invariant Valid() && all == AllocatorRuns.ServeAll(State(View(), live), requests[i..])
      {
        assert requests[i..][0] == requests[i] && requests[i..][1..] == requests[i + 1..];
        ok, live := Serve(requests[i], live);
        if !ok {
          return;
        }
      }
      ok := true;
    }
  }

  /** Hangs a new region behind the last one. */
  method AppendNode(first: Region?, prev: Region?, reg: Region, ghost nodes: seq<Region>, ghost runs: seq<Run>,
                    ghost taken: seq<Run>)
    returns (newFirst: Region, ghost newNodes: seq<Region>, ghost newRuns: seq<Run>)
    requires Growing(first, prev, nodes, runs) && reg !in nodes && Alone(reg, taken)
    modifies nodes, reg
    ensures newNodes == nodes + [reg] && newRuns == runs + taken && reg.len == old(reg.len)
    ensures Growing(newFirst, reg, newNodes, newRuns)
  {
    newNodes, newRuns := nodes + [reg], runs + taken;
    newFirst := if first == null then reg else first;
    if prev != null {
      prev.next := reg;
      reg.prev := prev;
    }
    assert RunsOf(newNodes) == newRuns;
  }

  /** A list of one fresh region. */
  ghost predicate Alone(reg: Region, runs: seq<Run>)
    reads reg
  {
    runs == [reg.View()] && reg.next == null && reg.prev == null
  }

  lemma LoneRegion(reg: Region)
    requires reg.next == null && reg.prev == null
    ensures Alone(reg, [Run(reg.block, reg.len, reg.bg)])
  {}

  // ----- the search, group by group -----

  /** The lowest fit from group i on is the lowest fit. */
  ghost predicate Searching(gs: seq<Group>, len: nat, i: nat) {
    i <= |gs| && FirstFit(gs, len, 0) == FirstFit(gs, len, i)
  }

  lemma SearchStarts(gs: seq<Group>, len: nat)
    ensures Searching(gs, len, 0)
  {}

  lemma SearchGoesOn(gs: seq<Group>, len: nat, i: nat)
    requires Searching(gs, len, i) && i < |gs|
    ensures !(len <= gs[i].free) ==> Searching(gs, len, i + 1)
  {}

  lemma SearchSucceeds(gs: seq<Group>, len: nat, i: nat)
    requires Searching(gs, len, i) && i < |gs| && len <= gs[i].free
    ensures Contiguous(gs, len) == Done([Run(gs[i].first + gs[i].start, len, i)], GrabAt(gs, i, len))
  {}

  lemma SearchFails(gs: seq<Group>, len: nat)
    requires Searching(gs, len, |gs|)
    ensures Contiguous(gs, len) == Failed(gs)
  {}

  // ----- lists built at the end -----

  /** A list under construction, with its last node at hand. */
  ghost predicate Growing(first: Region?, last: Region?, nodes: seq<Region>, runs: seq<Run>)
    reads nodes
  {
    IsList(first, nodes, runs) && last == NodeAt(nodes, |nodes| - 1)
  }

  lemma EmptyList()
    ensures Growing(null, null, [], [])
  {}

  lemma GrownIsList(first: Region?, last: Region?, nodes: seq<Region>, runs: seq<Run>, gs: seq<Group>)
    requires Growing(first, last, nodes, runs) && nodes != []
    ensures Allocated(Done(runs, gs), first, false, nodes)
  {}

  /** What an allocation hands back: a list of its runs, nothing, or no answer at all. */
  ghost predicate Allocated(o: Outcome, reg: Region?, hang: bool, nodes: seq<Region>)
    reads nodes
  {
    (hang <==> o.Hang?) && (reg != null <==> o.Done?) && (reg != null ==> IsList(reg, nodes, o.runs))
  }

  lemma NoneAllocated(o: Outcome, nodes: seq<Region>, hang: bool)
    requires !o.Done? && (hang <==> o.Hang?)
    ensures Allocated(o, null, hang, nodes)
  {}

  // ----- the spilling loop -----

  function PrependAll(runs: seq<Run>, o: Outcome): Outcome {
    if o.Done? then Done(runs + o.runs, o.groups) else o
  }

  /** What is left of the request decides the rest of the outcome. */
  ghost predicate Spilling(gs: seq<Group>, total: nat, runs: seq<Run>, now: seq<Group>, len: nat) {
    Spill(gs, total) == PrependAll(runs, Spill(now, len))
  }

  lemma SpillStarts(gs: seq<Group>, total: nat)
    ensures Spilling(gs, total, [], gs, total)
  {
    var o := Spill(gs, total);
    if o.Done? {
      assert [] + o.runs == o.runs;
    }
    hide Spill;
  }

  lemma PartialCases(gs: seq<Group>, len: nat)
    ensures var u := FirstUntouched(gs, 0);
            && (u == |gs| ==> Partial(gs, len) == Failed(gs))
            && (u < |gs| && len <= gs[u].free ==> Partial(gs, len) == Contiguous(gs, len))
            && (u < |gs| && gs[u].free < len ==>
                  Partial(gs, len) == Done([Run(gs[u].first + gs[u].start, gs[u].free, u)], GrabAt(gs, u, gs[u].free)))
  {
    hide Contiguous;
  }

  lemma SpillGoesOn(gs: seq<Group>, total: nat, runs: seq<Run>, now: seq<Group>, len: nat)
    requires Spilling(gs, total, runs, now, len) && len > 0
    ensures var next := Partial(now, len);
            && (!next.Done? ==> Spill(gs, total) == Failed(next.groups))
            && (next.Done? ==> |next.runs| == 1 && next.runs[0].len <= len)
            && (next.Done? && next.runs[0].len == 0 ==> Spill(gs, total) == Hang(next.groups))
            && (next.Done? && next.runs[0].len > 0 ==>
                  Spilling(gs, total, runs + next.runs, next.groups, len - next.runs[0].len))
  {
    var next := Partial(now, len);
    PartialKinds(now, len);
    if next.Done? {
      PartialOne(now, len);
      var r := next.runs[0];
      if r.len > 0 {
        var rest := Spill(next.groups, len - r.len);
        if rest.Done? {
          assert runs + ([r] + rest.runs) == runs + next.runs + rest.runs;
        }
      }
    }
    hide Partial;
  }

  /** A region of no blocks leaves the groups as they were. */
  lemma PartialKinds(now: seq<Group>, len: nat)
    requires len > 0
    ensures !Partial(now, len).Hang?
    ensures Partial(now, len).Done? && Partial(now, len).runs[0].len == 0 ==> Partial(now, len).groups == now
  {}

  lemma SpillEnds(gs: seq<Group>, total: nat, runs: seq<Run>, now: seq<Group>)
    requires Spilling(gs, total, runs, now, 0)
    ensures Spill(gs, total) == Done(runs, now)
  {
    assert runs + [] == runs;
  }

  lemma ContiguousNeverHangs(gs: seq<Group>, len: nat)
    ensures !Contiguous(gs, len).Hang? && (Contiguous(gs, len).Failed? ==> Contiguous(gs, len).groups == gs)
  {}

  lemma AloneIs(reg: Region, runs: seq<Run>)
    requires Alone(reg, runs)
    ensures runs == [reg.View()] && runs[0].len == reg.len && reg.next == null && reg.prev == null
  {}

  lemma SingleList(reg: Region, runs: seq<Run>)
    requires Alone(reg, runs)
    ensures IsList(reg, [reg], runs)
  {
    assert RunsOf([reg]) == [reg.View()];
  }

  // ----- the fresh allocator -----

  ghost function InitialGroups(info: Info, aux: Aux): (gs: seq<Group>)
    requires Buildable(info, aux)
    ensures |gs| == aux.groups
  {
    seq(aux.groups, i requires 0 <= i < aux.groups => InitialGroup(info, aux, i))
  }

  /** Separate groups, each as init_bg leaves it. */
  ghost predicate AllBuilt(info: Info, aux: Aux, groups: seq<BlockGroup>)
    requires Buildable(info, aux)
    reads groups, set g | g in groups :: g.blockBitmap
  {
    |groups| <= aux.groups
    && (forall i, j :: 0 <= i < j < |groups| ==> groups[i] != groups[j] && groups[i].blockBitmap != groups[j].blockBitmap)
    && (forall i :: 0 <= i < |groups| ==>
          groups[i].Valid(info.blocksPerGroup) && groups[i].View() == InitialGroup(info, aux, i))
  }

  method BuildGroups(info: Info, aux: Aux) returns (groups: seq<BlockGroup>)
    requires Buildable(info, aux)
    ensures |groups| == aux.groups && AllBuilt(info, aux, groups)
    ensures forall k :: 0 <= k < |groups| ==> fresh(groups[k]) && fresh(groups[k].blockBitmap)
    ensures forall k :: 0 <= k < |groups| ==> groups[k].blockBitmap.Length == info.blockSize
  {
    groups := [];
    hide BlockGroup.Valid, BlockGroup.View, InitialGroup, HasSuperBlock, Buildable;
    for i := 0 to aux.groups
      invariant |groups| == i && AllBuilt(info, aux, groups)
      invariant forall k :: 0 <= k < |groups| ==> fresh(groups[k]) && fresh(groups[k].blockBitmap)
      invariant forall k :: 0 <= k < |groups| ==> groups[k].blockBitmap.Length == info.blockSize
    {
      var super := BgHasSuperBlock(info.sparse, i);
      var g := new BlockGroup(info, aux, i, super);
      groups := groups + [g];
    }
  }

  /** A new allocation: one list, read from its start, nothing set aside. */
  ghost predicate Fresh(alloc: BlockAllocation, runs: seq<Run>)
    reads alloc, alloc.list, alloc.oobList, alloc.list.nodes
  {
    && IsList(alloc.list.first, alloc.list.nodes, runs)
    && alloc.list.iter == alloc.list.last == alloc.list.first && alloc.list.partialIter == 0
    && alloc.oobList.nodes == [] && alloc.oobList.first == null && alloc.oobList.last == null
    && alloc.list != alloc.oobList
  }

  lemma FirstIs(alloc: BlockAllocation, runs: seq<Run>)
    requires Fresh(alloc, runs) && runs != []
    ensures alloc.list.last != null && alloc.list.last in alloc.list.nodes && alloc.list.last.prev == null
    ensures alloc.list.nodes != [] && alloc.list.nodes[0] == alloc.list.last && Distinct(alloc.list.nodes)
    ensures runs[0] == alloc.list.last.View()
    ensures alloc.oobList.nodes == [] && alloc.oobList.first == alloc.oobList.last == null && alloc.list != alloc.oobList
  {
    RunAt(alloc.list.nodes, 0);
  }

  lemma ReduceNothing(gs: seq<Group>, runs: seq<Run>)
    requires |runs| > 0 && AtBack(gs, runs[0])
    ensures Reduce(gs, runs, 0) == Next(State(gs, runs))
  {
    assert gs[runs[0].bg := GiveBack(gs[runs[0].bg], 0)] == gs;
    assert [runs[0]] + runs[1..] == runs;
  }

  lemma ReduceIs(gs: seq<Group>, runs: seq<Run>, len: nat)
    requires |runs| > 0 && AtBack(gs, runs[0]) && len > 0
    ensures var o, r := Reduce(gs, runs, len), runs[0];
            && (len < r.len ==> len <= gs[r.bg].start
                                && o == Next(State(GiveBackAt(gs, r.bg, len), [r.(len := r.len - len)] + runs[1..])))
            && (len == r.len ==> r.len <= gs[r.bg].start && o == Next(State(GiveBackAt(gs, r.bg, r.len), [])))
            && (len > r.len ==> r.len <= gs[r.bg].start && o == Crash)
  {}

  /** The branch that keeps a shorter region. */
  method ShortenFirst(alloc: BlockAllocation, len: u32, ghost runs: seq<Run>)
    requires Fresh(alloc, runs) && runs != [] && len < runs[0].len
    modifies alloc.list.nodes`len
    ensures Fresh(alloc, [runs[0].(len := runs[0].len - len)] + runs[1..])
  {
    FirstIs(alloc, runs);
    ShortenNode(alloc.list.nodes, alloc.list.last, len);
    assert runs[0 := runs[0].(len := runs[0].len - len)] == [runs[0].(len := runs[0].len - len)] + runs[1..];
    hide RunsOf, Linked, BackLinked;
  }

  method ShortenNode(ghost nodes: seq<Region>, first: Region, len: u32)
    requires nodes != [] && nodes[0] == first && Distinct(nodes) && len < first.len
    modifies first`len
    ensures RunsOf(nodes) == old(RunsOf(nodes))[0 := old(first.View()).(len := old(first.len) - len)]
  {
    RunsAll(nodes);
    hide RunsOf;
    first.len := first.len - len;
    RunsAll(nodes);
  }

  /** The branch that gives back the whole region: without a predecessor the list is emptied. */
  method DropList(alloc: BlockAllocation)
    requires alloc.oobList.nodes == [] && alloc.oobList.first == alloc.oobList.last == null && alloc.list != alloc.oobList
    modifies alloc.list
    ensures Fresh(alloc, []) && alloc.list.last == null
  {
    alloc.list.first, alloc.list.last, alloc.list.iter := null, null, null;
    alloc.list.partialIter := 0;
    alloc.list.nodes := [];
  }

  /** The arguments of the request are words. */
  predicate Fits32(request: Request) {
    request.Blocks? ==> request.len < TWO32 && request.back < TWO32
  }

  lemma ReduceEnds(gs: seq<Group>, runs: seq<Run>, back: nat)
    requires |runs| > 0 && AtBack(gs, runs[0])
    ensures !Reduce(gs, runs, back).NeverEnds?
  {}

  /** A fresh allocation shows its runs, read from the start, and every prev pointer is right. */
  lemma FreshShows(alloc: BlockAllocation, runs: seq<Run>)
    requires Fresh(alloc, runs)
    ensures alloc.Shows(Lists(runs, 0, 0, [])) && BackLinked(alloc.list.nodes) && PrevOk(alloc.list.nodes, 0)
  {
    assert Linked(alloc.oobList.nodes);
  }

  // ----- block numbers are words -----

  ghost predicate Bounded(gs: seq<Group>) {
    forall i :: 0 <= i < |gs| ==> gs[i].first + gs[i].start + gs[i].free < 0xFFFF_FFFF
  }

  lemma {:induction false} TakenBounded(gs: seq<Group>, runs: seq<Run>, after: seq<Group>)
    requires Bounded(gs) && Taken(gs, runs, after)
    ensures forall i :: 0 <= i < |runs| ==> runs[i].block + runs[i].len < 0xFFFF_FFFF
    decreases |runs|
  {
    if runs != [] {
      TakenBounded(GrabAt(gs, runs[0].bg, runs[0].len), runs[1..], after);
      assert forall i :: 0 < i < |runs| ==> runs[i] == runs[1..][i - 1];
    }
  }

  lemma AllocatorBounded(a: Allocator)
    requires a.Valid()
    ensures Bounded(a.View())
  {
    forall i | 0 <= i < |a.groups|
      ensures a.View()[i].first + a.View()[i].start + a.View()[i].free < 0xFFFF_FFFF
    {
      assert a.groups[i].Valid(a.n);
    }
  }

  lemma AllocationBounded(a: Allocator, len: nat)
    requires a.Valid()
    ensures AllocatorSpec.DoAllocate(a.View(), len).Done? ==> NoWrap(AllocatorSpec.DoAllocate(a.View(), len).runs)
  {
    var gs := a.View();
    AllocatorBounded(a);
    AllocationTakes(gs, len);
    TakenBounded(gs, AllocationRuns(gs, len), AllocatorSpec.DoAllocate(gs, len).groups);
    hide AllocatorSpec.DoAllocate, AllocationRuns, Taken;
  }

  ghost predicate WithinGroup(gs: seq<Group>, n: nat) {
    forall i :: 0 <= i < |gs| ==> gs[i].start + gs[i].free <= n
  }

  lemma {:induction false} TakenWithin(gs: seq<Group>, runs: seq<Run>, after: seq<Group>, n: nat)
    requires WithinGroup(gs, n) && Taken(gs, runs, after)
    ensures forall i :: 0 <= i < |runs| ==> runs[i].len <= n
    decreases |runs|
  {
    if runs != [] {
      TakenWithin(GrabAt(gs, runs[0].bg, runs[0].len), runs[1..], after, n);
      assert forall i :: 0 < i < |runs| ==> runs[i] == runs[1..][i - 1];
    }
  }

  /** No region is longer than a group. */
  lemma AllocationWithin(a: Allocator, len: nat)
    requires a.Valid()
    ensures var o := AllocatorSpec.DoAllocate(a.View(), len);
            o.Done? ==> forall i :: 0 <= i < |o.runs| ==> o.runs[i].len <= a.n
  {
    var gs := a.View();
    forall i | 0 <= i < |a.groups|
      ensures gs[i].start + gs[i].free <= a.n
    {
      assert a.groups[i].Valid(a.n);
    }
    AllocationTakes(gs, len);
    TakenWithin(gs, AllocationRuns(gs, len), AllocatorSpec.DoAllocate(gs, len).groups, a.n);
    hide AllocatorSpec.DoAllocate, AllocationRuns, Taken;
  }
}
