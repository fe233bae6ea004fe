/** Whole runs of the allocator: any mix of requests keeps every live region apart from every other, from the
    headers and from the area past the end of the device. */
module AllocatorRuns {
  import opened AllocatorSpec

  /** What never changes about a group: its first block, its header and the bits it may hand out. */
  datatype Shape = Shape(first: nat, header: nat, end: nat)

  ghost predicate Apart(shapes: seq<Shape>) {
    forall i, j :: 0 <= i < j < |shapes| ==> shapes[i].first + shapes[i].end <= shapes[j].first
  }

  predicate Fits(g: Group, s: Shape) {
    g.first == s.first && s.header <= g.start && g.start + g.free == s.end
  }

  ghost predicate AllFit(gs: seq<Group>, shapes: seq<Shape>) {
    |gs| == |shapes| && forall i :: 0 <= i < |gs| ==> Fits(gs[i], shapes[i])
  }

  /** The blocks of a run are taken blocks of its group, behind the header. */
  predicate Inside(r: Run, gs: seq<Group>, shapes: seq<Shape>) {
    r.bg < |gs| && r.bg < |shapes|
    && (r.len > 0 ==> shapes[r.bg].first + shapes[r.bg].header <= r.block
                      && r.block + r.len <= gs[r.bg].first + gs[r.bg].start)
  }

  predicate Disjoint(r: Run, s: Run) {
    r.len == 0 || s.len == 0 || r.block + r.len <= s.block || s.block + s.len <= r.block
  }

  ghost predicate AllInside(live: seq<Run>, gs: seq<Group>, shapes: seq<Shape>) {
    forall j :: 0 <= j < |live| ==> Inside(live[j], gs, shapes)
  }

  ghost predicate AllDisjoint(live: seq<Run>) {
    forall i, j :: 0 <= i < j < |live| ==> Disjoint(live[i], live[j])
  }

  ghost predicate Safe(gs: seq<Group>, live: seq<Run>, shapes: seq<Shape>) {
    Apart(shapes) && AllFit(gs, shapes) && AllInside(live, gs, shapes) && AllDisjoint(live)
  }

  // ----- taking -----

  lemma InsideAfterGrab(r: Run, gs: seq<Group>, shapes: seq<Shape>, i: nat, len: nat)
    requires Inside(r, gs, shapes) && i < |gs| && len <= gs[i].free
    ensures Inside(r, GrabAt(gs, i, len), shapes)
  {}

  /** A run inside the old state cannot meet what is taken from the front of a free run. */
  lemma FreshIsDisjoint(r: Run, s: Run, gs: seq<Group>, shapes: seq<Shape>)
    requires Apart(shapes) && AllFit(gs, shapes) && Inside(r, gs, shapes) && AtFront(gs, s)
    ensures Disjoint(r, s)
  {
    assert Fits(gs[r.bg], shapes[r.bg]) && Fits(gs[s.bg], shapes[s.bg]);
    if r.bg < s.bg {
      assert shapes[r.bg].first + shapes[r.bg].end <= shapes[s.bg].first;
    } else if s.bg < r.bg {
      assert shapes[s.bg].first + shapes[s.bg].end <= shapes[r.bg].first;
    }
  }

  lemma FitAfterGrab(gs: seq<Group>, shapes: seq<Shape>, i: nat, len: nat)
    requires AllFit(gs, shapes) && i < |gs| && len <= gs[i].free
    ensures AllFit(GrabAt(gs, i, len), shapes)
  {}

  lemma TakeOne(gs: seq<Group>, live: seq<Run>, shapes: seq<Shape>, r: Run)
    requires Safe(gs, live, shapes) && AtFront(gs, r)
    ensures Safe(GrabAt(gs, r.bg, r.len), live + [r], shapes)
  {
    var gs', live' := GrabAt(gs, r.bg, r.len), live + [r];
    FitAfterGrab(gs, shapes, r.bg, r.len);
    forall j | 0 <= j < |live'|
      ensures Inside(live'[j], gs', shapes) && (j < |live| ==> Disjoint(live'[j], r))
    {
      if j < |live| {
        InsideAfterGrab(live[j], gs, shapes, r.bg, r.len);
        FreshIsDisjoint(live[j], r, gs, shapes);
      } else {
        assert Fits(gs[r.bg], shapes[r.bg]);
      }
    }
    hide Disjoint, Inside, GrabAt, AllFit;
  }

  lemma {:induction false} TakeAll(gs: seq<Group>, live: seq<Run>, shapes: seq<Shape>, runs: seq<Run>, after: seq<Group>)
    requires Safe(gs, live, shapes) && Taken(gs, runs, after)
    ensures Safe(after, live + runs, shapes)
    decreases |runs|
  {
    if runs == [] {
      assert live + runs == live;
    } else {
      TakeOne(gs, live, shapes, runs[0]);
      TakeAll(GrabAt(gs, runs[0].bg, runs[0].len), live + [runs[0]], shapes, runs[1..], after);
      assert live + [runs[0]] + runs[1..] == live + runs;
    }
    hide Safe;
  }

  // ----- giving back -----

  function GiveBackAt(gs: seq<Group>, i: nat, len: nat): (r: seq<Group>)
    requires i < |gs| && len <= gs[i].start
    ensures |r| == |gs|
  {
    gs[i := GiveBack(gs[i], len)]
  }

  /** The run ends where the free blocks of its group begin. */
  predicate AtBack(gs: seq<Group>, r: Run) {
    r.bg < |gs| && r.len <= gs[r.bg].start && r.block + r.len == gs[r.bg].first + gs[r.bg].start
  }

  lemma ShortenOther(r: Run, s: Run, gs: seq<Group>, shapes: seq<Shape>, back: nat)
    requires Apart(shapes) && AllFit(gs, shapes) && Inside(r, gs, shapes) && Inside(s, gs, shapes)
    requires AtBack(gs, s) && back < s.len && Disjoint(r, s)
    ensures Inside(r, GiveBackAt(gs, s.bg, back), shapes) && Disjoint(r, s.(len := s.len - back))
  {
    assert Fits(gs[r.bg], shapes[r.bg]);
  }

  /** Giving back the tail of a run that ends at the free blocks. */
  lemma Shorten(gs: seq<Group>, live: seq<Run>, shapes: seq<Shape>, k: nat, back: nat)
    requires Safe(gs, live, shapes) && k < |live| && AtBack(gs, live[k]) && back < live[k].len
    ensures Safe(GiveBackAt(gs, live[k].bg, back), live[k := live[k].(len := live[k].len - back)], shapes)
  {
    var s := live[k];
    var gs', live' := GiveBackAt(gs, s.bg, back), live[k := s.(len := s.len - back)];
    assert Inside(s, gs, shapes) && Fits(gs[s.bg], shapes[s.bg]);
    forall j | 0 <= j < |live|
      ensures Inside(live'[j], gs', shapes) && (j != k ==> Disjoint(live'[j], live'[k]) && Disjoint(live'[k], live'[j]))
    {
      if j != k {
        assert Inside(live[j], gs, shapes);
        assert if j < k then Disjoint(live[j], s) else Disjoint(s, live[j]);
        ShortenOther(live[j], s, gs, shapes, back);
      }
    }
    hide Disjoint, Inside;
  }

  /** All of a run, its blocks going back to its group: the list forgets it. */
  lemma Release(gs: seq<Group>, live: seq<Run>, shapes: seq<Shape>, r: Run)
    requires Safe(gs, live + [r], shapes) && AtBack(gs, r)
    ensures Safe(GiveBackAt(gs, r.bg, r.len), live, shapes)
  {
    var gs', all := GiveBackAt(gs, r.bg, r.len), live + [r];
    assert Inside(r, gs, shapes) && Fits(gs[r.bg], shapes[r.bg]) by {
      assert all[|live|] == r;
    }
    forall j | 0 <= j < |live|
      ensures Inside(live[j], gs', shapes)
    {
      assert all[j] == live[j] && all[|live|] == r;
      assert Inside(all[j], gs, shapes) && Disjoint(all[j], all[|live|]);
      assert Fits(gs[live[j].bg], shapes[live[j].bg]);
    }
    assert AllDisjoint(live) by {
      forall i, j | 0 <= i < j < |live|
        ensures Disjoint(live[i], live[j])
      {
        assert all[i] == live[i] && all[j] == live[j];
      }
    }
    hide Disjoint, Inside;
  }

  // ----- requests -----

  lemma {:induction false} FullGroupStays(gs: seq<Group>, runs: seq<Run>, after: seq<Group>, i: nat)
    requires Taken(gs, runs, after) && i < |gs| && gs[i].free == 0
    ensures i < |after| && after[i].first + after[i].start == gs[i].first + gs[i].start
    decreases |runs|
  {
    if runs != [] {
      FullGroupStays(GrabAt(gs, runs[0].bg, runs[0].len), runs[1..], after, i);
    }
  }

  lemma {:induction false} StartsGrow(gs: seq<Group>, runs: seq<Run>, after: seq<Group>, i: nat)
    requires Taken(gs, runs, after) && i < |gs|
    ensures i < |after| && gs[i].start <= after[i].start
    decreases |runs|
  {
    if runs != [] {
      StartsGrow(GrabAt(gs, runs[0].bg, runs[0].len), runs[1..], after, i);
    }
  }

  lemma SpillFirst(gs: seq<Group>, len: nat)
    requires len > 0 && Spill(gs, len).Done?
    ensures |Spill(gs, len).runs| > 0 && AtBack(Spill(gs, len).groups, Spill(gs, len).runs[0])
  {
    var u := FirstUntouched(gs, 0);
    SpillStep(gs, len);
    if u < |gs| && 0 < gs[u].free < len {
      var after := GrabAt(gs, u, gs[u].free);
      SpillTakes(after, len - gs[u].free);
      FullGroupStays(after, SpillRuns(after, len - gs[u].free), Spill(after, len - gs[u].free).groups, u);
      StartsGrow(after, SpillRuns(after, len - gs[u].free), Spill(after, len - gs[u].free).groups, u);
    }
    hide Spill, Taken, SpillRuns;
  }

  /** Right after an allocation its first region ends where the free blocks of its group begin. */
  lemma FirstRunAtBack(gs: seq<Group>, len: nat)
    requires DoAllocate(gs, len).Done?
    ensures var o := DoAllocate(gs, len); |o.runs| > 0 && AtBack(o.groups, o.runs[0])
  {
    if !Contiguous(gs, len).Done? {
      SpillFirst(gs, len);
    }
    hide Spill;
  }

  datatype Request =
    | OneBlock                       // allocate_block
    | Blocks(len: nat, back: nat)    // allocate_blocks, then at once reduce_allocation

  datatype State = State(groups: seq<Group>, live: seq<Run>)

  datatype Served = Next(state: State) | NeverEnds | Crash

  /** reduce_allocation on a fresh allocation: its last pointer is still at the first region. */
  function Reduce(gs: seq<Group>, runs: seq<Run>, back: nat): Served
    requires |runs| > 0 && AtBack(gs, runs[0])
  {
    var r := runs[0];
    if back < r.len then Next(State(GiveBackAt(gs, r.bg, back), [r.(len := r.len - back)] + runs[1..]))
    else if back == 0 then Next(State(gs, runs))
    else if back == r.len then Next(State(GiveBackAt(gs, r.bg, r.len), []))
    else Crash
  }

  /** One request; blocks of failed or emptied allocations stay reserved without being live. */
  function Serve(s: State, request: Request): Served {
    var o := if request.OneBlock? then Contiguous(s.groups, 1) else DoAllocate(s.groups, request.len);
    if o.Hang? then NeverEnds
    else if o.Failed? then Next(s.(groups := o.groups))
    else if request.OneBlock? then Next(State(o.groups, s.live + o.runs))
    else
      FirstRunAtBack(s.groups, request.len);
      var reduced := Reduce(o.groups, o.runs, request.back);
      if !reduced.Next? then reduced
      else Next(State(reduced.state.groups, s.live + reduced.state.live))
  }

  /** All the requests in order, up to one that crashes or never ends. */
  function ServeAll(s: State, requests: seq<Request>): Served
    decreases |requests|
  {
    if requests == [] then Next(s)
    else
      var first := Serve(s, requests[0]);
      if first.Next? then ServeAll(first.state, requests[1..]) else first
  }

  lemma {:induction false} PrefixSafe(gs: seq<Group>, live: seq<Run>, more: seq<Run>, shapes: seq<Shape>)
    requires Safe(gs, live + more, shapes)
    ensures Safe(gs, live, shapes)
  {
    var all := live + more;
    assert forall j :: 0 <= j < |live| ==> live[j] == all[j];
    hide Inside, Disjoint, Fits;
  }

  lemma ReduceSafe(gs: seq<Group>, live: seq<Run>, runs: seq<Run>, shapes: seq<Shape>, back: nat)
    requires Safe(gs, live + runs, shapes) && |runs| > 0 && AtBack(gs, runs[0])
    ensures var o := Reduce(gs, runs, back);
            o.Next? ==> Safe(o.state.groups, live + o.state.live, shapes)
  {
    var r := runs[0];
    if back < r.len {
      Shorten(gs, live + runs, shapes, |live|, back);
      var r' := r.(len := r.len - back);
      assert (live + runs)[|live| := r'] == live + ([r'] + runs[1..]);
    } else if back == r.len && back > 0 {
      assert live + [r] + runs[1..] == live + runs;
      PrefixSafe(gs, live + [r], runs[1..], shapes);
      Release(gs, live, shapes, r);
      assert live + [] == live;
    }
    hide Safe;
  }

  lemma ContiguousSafe(gs: seq<Group>, live: seq<Run>, shapes: seq<Shape>, len: nat)
    requires Safe(gs, live, shapes)
    ensures var o := Contiguous(gs, len);
            if o.Done? then Safe(o.groups, live + o.runs, shapes) else o.groups == gs
  {
    if Contiguous(gs, len).Done? {
      ContiguousTakes(gs, len);
      TakeAll(gs, live, shapes, Contiguous(gs, len).runs, Contiguous(gs, len).groups);
    }
    hide Safe, FirstFit;
  }

  lemma AllocateSafe(gs: seq<Group>, live: seq<Run>, shapes: seq<Shape>, len: nat)
    requires Safe(gs, live, shapes)
    ensures var o := DoAllocate(gs, len);
            if o.Done? then Safe(o.groups, live + o.runs, shapes) else Safe(o.groups, live, shapes)
  {
    AllocationTakes(gs, len);
    var runs, after := AllocationRuns(gs, len), DoAllocate(gs, len).groups;
    TakeAll(gs, live, shapes, runs, after);
    PrefixSafe(after, live, runs, shapes);
    hide Safe, DoAllocate, AllocationRuns;
  }

  lemma ServeSafe(s: State, request: Request, shapes: seq<Shape>)
    requires Safe(s.groups, s.live, shapes)
    ensures var o := Serve(s, request); o.Next? ==> Safe(o.state.groups, o.state.live, shapes)
  {
    if request.OneBlock? {
      ContiguousSafe(s.groups, s.live, shapes, 1);
    } else {
      AllocateSafe(s.groups, s.live, shapes, request.len);
      var o := DoAllocate(s.groups, request.len);
      if o.Done? {
        FirstRunAtBack(s.groups, request.len);
        ReduceSafe(o.groups, s.live, o.runs, shapes, request.back);
      }
    }
    hide Safe, DoAllocate, Contiguous, Reduce, AtBack;
  }

  /** Safety over whole runs: no live region ever meets another, a header, or the area past the last block. */
  lemma {:induction false} RunSafe(s: State, requests: seq<Request>, shapes: seq<Shape>)
    requires Safe(s.groups, s.live, shapes)
    ensures var o := ServeAll(s, requests); o.Next? ==> Safe(o.state.groups, o.state.live, shapes)
    decreases |requests|
  {
    if requests != [] {
      ServeSafe(s, requests[0], shapes);
      var first := Serve(s, requests[0]);
      if first.Next? {
        RunSafe(first.state, requests[1..], shapes);
      }
    }
    hide Safe, Serve;
  }

  // ----- what safety means for the blocks -----

  predicate InRun(r: Run, block: int) { r.block <= block < r.block + r.len }

  /** A block of a live region belongs to no other live region, lies behind its group's header and in front of the
      group's end. */
  lemma LiveBlock(gs: seq<Group>, live: seq<Run>, shapes: seq<Shape>, j: nat, block: nat)
    requires Safe(gs, live, shapes) && j < |live| && InRun(live[j], block)
    ensures forall k :: 0 <= k < |live| && k != j ==> !InRun(live[k], block)
    ensures live[j].bg < |shapes|
    ensures var s := shapes[live[j].bg]; s.first + s.header <= block < s.first + s.end
    ensures forall i :: 0 <= i < |shapes| && i != live[j].bg ==>
              !(shapes[i].first <= block < shapes[i].first + shapes[i].end)
  {
    forall k | 0 <= k < |live| && k != j
      ensures !InRun(live[k], block)
    {
      assert if k < j then Disjoint(live[k], live[j]) else Disjoint(live[j], live[k]);
    }
    assert Inside(live[j], gs, shapes) && Fits(gs[live[j].bg], shapes[live[j].bg]);
    forall i | 0 <= i < |shapes| && i != live[j].bg
      ensures !(shapes[i].first <= block < shapes[i].first + shapes[i].end)
    {
      var bg := live[j].bg;
      assert if i < bg then shapes[i].first + shapes[i].end <= shapes[bg].first
             else shapes[bg].first + shapes[bg].end <= shapes[i].first;
    }
  }
}
