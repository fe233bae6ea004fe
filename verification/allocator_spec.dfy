/** The allocation policy on the counters of the block groups, and what it promises. */
module AllocatorSpec {
  import opened Words

  /** The counters of one block group. */
  datatype Group = Group(first: nat, start: nat, free: nat, used: nat)

  /** len blocks from block on, in group bg. */
  datatype Run = Run(block: nat, len: nat, bg: nat)

  datatype Outcome = Done(runs: seq<Run>, groups: seq<Group>) | Failed(groups: seq<Group>) | Hang(groups: seq<Group>)

  // ----- one group -----

  function Grab(g: Group, len: nat): Group
    requires len <= g.free
  {
    Group(g.first, g.start + len, g.free - len, g.used + len)
  }

  function GiveBack(g: Group, len: nat): Group
    requires len <= g.start
  {
    Group(g.first, g.start - len, g.free + len, g.used)
  }

  function FrontRun(g: Group, len: nat, bg: nat): Run { Run(g.first + g.start, len, bg) }

  function GrabAt(gs: seq<Group>, i: nat, len: nat): (r: seq<Group>)
    requires i < |gs| && len <= gs[i].free
    ensures |r| == |gs|
  {
    gs[i := Grab(gs[i], len)]
  }

  // ----- the searches -----

  /** The lowest group from i on with len free blocks, or the number of groups. */
  function FirstFit(gs: seq<Group>, len: nat, i: nat): (k: nat)
    requires i <= |gs|
    ensures i <= k <= |gs| && (k < |gs| ==> len <= gs[k].free)
    decreases |gs| - i
  {
    if i == |gs| || len <= gs[i].free then i else FirstFit(gs, len, i + 1)
  }

  /** The lowest group from i on that has given out no data block, or the number of groups. */
  function FirstUntouched(gs: seq<Group>, i: nat): (k: nat)
    requires i <= |gs|
    ensures i <= k <= |gs| && (k < |gs| ==> gs[k].used == 0)
    decreases |gs| - i
  {
    if i == |gs| || gs[i].used == 0 then i else FirstUntouched(gs, i + 1)
  }

  lemma {:induction false} FirstFitIsLowest(gs: seq<Group>, len: nat, i: nat, j: nat)
    requires i <= |gs| && i <= j < FirstFit(gs, len, i)
    ensures j < |gs| && gs[j].free < len
    decreases |gs| - i
  {
    if i < j {
      FirstFitIsLowest(gs, len, i + 1, j);
    }
  }

  lemma {:induction false} FirstFitBefore(gs: seq<Group>, len: nat, i: nat, j: nat)
    requires i <= j < |gs| && len <= gs[j].free
    ensures FirstFit(gs, len, i) <= j
    decreases j - i
  {
    if !(len <= gs[i].free) {
      FirstFitBefore(gs, len, i + 1, j);
    }
  }

  // ----- the allocation -----

  /** One region for everything, in the lowest group where it fits. */
  function Contiguous(gs: seq<Group>, len: nat): Outcome {
    var i := FirstFit(gs, len, 0);
    if i < |gs| then Done([FrontRun(gs[i], len, i)], GrabAt(gs, i, len)) else Failed(gs)
  }

  /** The next region of a request that fits nowhere as a whole. */
  function Partial(gs: seq<Group>, len: nat): Outcome {
    var u := FirstUntouched(gs, 0);
    if u == |gs| then Failed(gs)
    else if len <= gs[u].free then Contiguous(gs, len)
    else Done([FrontRun(gs[u], gs[u].free, u)], GrabAt(gs, u, gs[u].free))
  }

  function Prepend(r: Run, o: Outcome): Outcome {
    match o
    case Done(runs, gs) => Done([r] + runs, gs)
    case Failed(gs) => Failed(gs)
    case Hang(gs) => Hang(gs)
  }

  lemma {:induction false} PartialOne(gs: seq<Group>, len: nat)
    requires Partial(gs, len).Done?
    ensures |Partial(gs, len).runs| == 1 && Partial(gs, len).runs[0].len <= len
  {}

  /** Region after region; a region of no blocks leaves everything as it was, and the loop never ends. */
  function Spill(gs: seq<Group>, len: nat): Outcome
    decreases len
  {
    if len == 0 then Done([], gs)
    else
      var next := Partial(gs, len);
      if !next.Done? then next
      else
        PartialOne(gs, len);
        var r := next.runs[0];
        if r.len == 0 then Hang(gs) else Prepend(r, Spill(next.groups, len - r.len))
  }

  /** do_allocate; no region at all is a failure. */
  function DoAllocate(gs: seq<Group>, len: nat): Outcome {
    var whole := Contiguous(gs, len);
    if whole.Done? then whole else if len == 0 then Failed(gs) else Spill(gs, len)
  }

  // ----- when it succeeds -----

  predicate Dead(g: Group) { g.used == 0 && g.free == 0 }

  /** The free blocks of the untouched groups in front of the first untouched group without any. */
  function Reach(gs: seq<Group>): nat {
    if gs == [] || Dead(gs[0]) then 0
    else (if gs[0].used == 0 then gs[0].free else 0) + Reach(gs[1..])
  }

  ghost predicate Blocked(gs: seq<Group>) {
    exists i :: 0 <= i < |gs| && Dead(gs[i])
  }

  /** The free blocks of all the untouched groups. */
  function UntouchedFree(gs: seq<Group>): nat {
    if gs == [] then 0 else (if gs[0].used == 0 then gs[0].free else 0) + UntouchedFree(gs[1..])
  }

  lemma {:induction false} ReachIsAll(gs: seq<Group>)
    requires !Blocked(gs)
    ensures Reach(gs) == UntouchedFree(gs)
  {
    if gs != [] {
      assert !Dead(gs[0]);
      assert !Blocked(gs[1..]) by {
        forall i | 0 <= i < |gs[1..]|
          ensures !Dead(gs[1..][i])
        {
          assert gs[1..][i] == gs[i + 1];
        }
      }
      ReachIsAll(gs[1..]);
    }
  }

  /** Filling the first untouched group takes its free blocks out of reach and nothing else. */
  lemma {:induction false} ReachAfterFill(gs: seq<Group>, i: nat)
    requires i <= |gs|
    ensures var u := FirstUntouched(gs, i);
            && (u == |gs| ==> Reach(gs[i..]) == 0)
            && (u < |gs| && gs[u].free == 0 ==> Reach(gs[i..]) == 0)
            && (u < |gs| && gs[u].free > 0 ==>
                  Reach(gs[i..]) == gs[u].free + Reach(GrabAt(gs, u, gs[u].free)[i..]))
    decreases |gs| - i
  {
    if i < |gs| {
      var u := FirstUntouched(gs, i);
      assert gs[i..][1..] == gs[i + 1..] && gs[i..][0] == gs[i];
      if u < |gs| {
        var after := GrabAt(gs, u, gs[u].free);
        assert after[i..][1..] == after[i + 1..] && after[i..][0] == after[i];
        assert u == i ==> after[i + 1..] == gs[i + 1..];
      }
      if gs[i].used != 0 {
        ReachAfterFill(gs, i + 1);
      }
    }
  }

  lemma {:induction false} UntouchedNeverMissed(gs: seq<Group>, i: nat, j: nat)
    requires i <= j < |gs| && gs[j].used == 0
    ensures FirstUntouched(gs, i) <= j
    decreases j - i
  {
    if gs[i].used != 0 {
      UntouchedNeverMissed(gs, i + 1, j);
    }
  }

  /** The first untouched group decides the next step. */
  lemma {:induction false} PartialIs(gs: seq<Group>, len: nat)
    requires len > 0
    ensures var u, next := FirstUntouched(gs, 0), Partial(gs, len);
            && (u == |gs| ==> next == Failed(gs))
            && (u < |gs| && gs[u].free == 0 ==> next.Done? && next.runs[0].len == 0)
            && (u < |gs| && len <= gs[u].free ==> next == Contiguous(gs, len) && next.Done? && next.runs[0].len == len)
            && (u < |gs| && 0 < gs[u].free < len ==>
                  next == Done([FrontRun(gs[u], gs[u].free, u)], GrabAt(gs, u, gs[u].free)))
  {
    var u := FirstUntouched(gs, 0);
    if u < |gs| && len <= gs[u].free {
      FirstFitBefore(gs, len, 0, u);
    }
  }

  lemma {:induction false} BlockedByFirst(gs: seq<Group>)
    ensures var u := FirstUntouched(gs, 0);
            && (u == |gs| ==> !Blocked(gs))
            && (u < |gs| && gs[u].free == 0 ==> Blocked(gs))
            && (u < |gs| && gs[u].free > 0 ==> (Blocked(gs) <==> Blocked(GrabAt(gs, u, gs[u].free))))
  {
    var u := FirstUntouched(gs, 0);
    if Blocked(gs) {
      var i :| 0 <= i < |gs| && Dead(gs[i]);
      UntouchedNeverMissed(gs, 0, i);
      if gs[u].free > 0 {
        assert Dead(GrabAt(gs, u, gs[u].free)[i]);
      }
    }
    if u < |gs| {
      if gs[u].free == 0 {
        assert Dead(gs[u]);
      } else if Blocked(GrabAt(gs, u, gs[u].free)) {
        var after := GrabAt(gs, u, gs[u].free);
        var i :| 0 <= i < |after| && Dead(after[i]);
        assert Dead(gs[i]);
      }
    }
  }

  lemma {:induction false} SpillStep(gs: seq<Group>, len: nat)
    requires len > 0
    ensures var u, all := FirstUntouched(gs, 0), Spill(gs, len);
            && (u == |gs| ==> all == Failed(gs))
            && (u < |gs| && gs[u].free == 0 ==> all == Hang(gs))
            && (u < |gs| && len <= gs[u].free ==> all == Contiguous(gs, len) && all.Done?)
            && (u < |gs| && 0 < gs[u].free < len ==>
                  all == Prepend(FrontRun(gs[u], gs[u].free, u), Spill(GrabAt(gs, u, gs[u].free), len - gs[u].free)))
  {
    PartialIs(gs, len);
    PartialOneAgain(gs, len);
    hide Partial;
  }

  lemma {:induction false} PartialOneAgain(gs: seq<Group>, len: nat)
    ensures Partial(gs, len).Done? ==> |Partial(gs, len).runs| == 1 && Partial(gs, len).runs[0].len <= len
    ensures Contiguous(gs, len).Done? ==> |Contiguous(gs, len).runs| == 1
  {}

  /** The spilling loop succeeds exactly when the untouched groups it can reach hold enough; otherwise it never ends
      exactly when an untouched group has no free block. */
  lemma {:induction false} SpillOutcome(gs: seq<Group>, len: nat)
    requires len > 0
    ensures Spill(gs, len).Done? <==> len <= Reach(gs)
    ensures !Spill(gs, len).Done? ==> (Spill(gs, len).Hang? <==> Blocked(gs))
    decreases len
  {
    var u := FirstUntouched(gs, 0);
    assert gs[0..] == gs;
    ReachAfterFill(gs, 0);
    BlockedByFirst(gs);
    SpillStep(gs, len);
    if u < |gs| && 0 < gs[u].free < len {
      var after := GrabAt(gs, u, gs[u].free);
      assert after[0..] == after;
      SpillOutcome(after, len - gs[u].free);
    }
    hide Spill, Contiguous, Reach, Blocked, GrabAt, FirstUntouched, FrontRun;
  }

  lemma {:induction false} ContiguousOutcome(gs: seq<Group>, len: nat)
    ensures Contiguous(gs, len).Done? <==> exists i :: 0 <= i < |gs| && len <= gs[i].free
    ensures !Contiguous(gs, len).Hang?
  {
    if i :| 0 <= i < |gs| && len <= gs[i].free {
      FirstFitBefore(gs, len, 0, i);
    }
  }

  /** Exactly when an allocation of at least one block succeeds, fails, and never ends. */
  lemma {:induction false} AllocationOutcome(gs: seq<Group>, len: nat)
    requires len > 0
    ensures DoAllocate(gs, len).Done? <==> (exists i :: 0 <= i < |gs| && len <= gs[i].free) || len <= Reach(gs)
    ensures DoAllocate(gs, len).Hang? <==> !DoAllocate(gs, len).Done? && Blocked(gs)
  {
    ContiguousOutcome(gs, len);
    SpillOutcome(gs, len);
    hide Contiguous, Spill, Reach, Blocked;
  }

  /** While every untouched group has a free block the allocation ends, and it succeeds exactly when one group or
      all the untouched groups together hold enough. */
  lemma {:induction false} AllocationSucceeds(gs: seq<Group>, len: nat)
    requires len > 0 && !Blocked(gs)
    ensures !DoAllocate(gs, len).Hang?
    ensures DoAllocate(gs, len).Done? <==> (exists i :: 0 <= i < |gs| && len <= gs[i].free) || len <= UntouchedFree(gs)
  {
    AllocationOutcome(gs, len);
    ReachIsAll(gs);
    hide DoAllocate, Reach, Blocked, UntouchedFree;
  }

  // ----- what is taken -----

  function Total(runs: seq<Run>): nat {
    if runs == [] then 0 else runs[0].len + Total(runs[1..])
  }

  /** The run is the front of the free blocks of its group. */
  predicate AtFront(gs: seq<Group>, r: Run) {
    r.bg < |gs| && r.len <= gs[r.bg].free && r.block == gs[r.bg].first + gs[r.bg].start
  }

  /** after is gs with the runs taken one after the other, each from the front of its group's free blocks. */
  ghost predicate Taken(gs: seq<Group>, runs: seq<Run>, after: seq<Group>)
    decreases |runs|
  {
    if runs == [] then gs == after
    else AtFront(gs, runs[0]) && Taken(GrabAt(gs, runs[0].bg, runs[0].len), runs[1..], after)
  }

  /** The regions the spilling loop takes, kept or lost. */
  function SpillRuns(gs: seq<Group>, len: nat): seq<Run>
    decreases len
  {
    if len == 0 then []
    else
      var next := Partial(gs, len);
      if !next.Done? then []
      else
        PartialOne(gs, len);
        var r := next.runs[0];
        if r.len == 0 then [] else [r] + SpillRuns(next.groups, len - r.len)
  }

  lemma {:induction false} PartialTakes(gs: seq<Group>, len: nat)
    requires Partial(gs, len).Done?
    ensures var next := Partial(gs, len);
            |next.runs| == 1 && AtFront(gs, next.runs[0])
            && next.groups == GrabAt(gs, next.runs[0].bg, next.runs[0].len)
  {}

  lemma {:induction false} TotalCons(r: Run, rest: seq<Run>)
    ensures Total([r] + rest) == r.len + Total(rest)
  {
    assert ([r] + rest)[1..] == rest;
  }

  lemma {:induction false} TakenCons(gs: seq<Group>, r: Run, rest: seq<Run>, after: seq<Group>)
    requires AtFront(gs, r) && Taken(GrabAt(gs, r.bg, r.len), rest, after)
    ensures Taken(gs, [r] + rest, after)
  {
    assert ([r] + rest)[1..] == rest;
    hide AtFront, GrabAt;
  }

  /** Whatever its end, the spilling loop has taken a list of runs; when it succeeds they are the result and add up
      to the request. */
  lemma {:induction false} SpillTakes(gs: seq<Group>, len: nat)
    ensures Taken(gs, SpillRuns(gs, len), Spill(gs, len).groups)
    ensures Spill(gs, len).Done? ==> Spill(gs, len).runs == SpillRuns(gs, len) && Total(SpillRuns(gs, len)) == len
    decreases len
  {
    var next := Partial(gs, len);
    if len > 0 && next.Done? {
      PartialOne(gs, len);
      PartialTakes(gs, len);
      var r := next.runs[0];
      if r.len > 0 {
        SpillTakes(next.groups, len - r.len);
        var rest := SpillRuns(next.groups, len - r.len);
        TotalCons(r, rest);
        TakenCons(gs, r, rest, Spill(next.groups, len - r.len).groups);
        hide Partial, Taken, Total, AtFront, GrabAt;
        assert SpillRuns(gs, len) == [r] + rest;
      }
    }
  }

  function AllocationRuns(gs: seq<Group>, len: nat): seq<Run> {
    var whole := Contiguous(gs, len);
    if whole.Done? then whole.runs else if len == 0 then [] else SpillRuns(gs, len)
  }

  lemma {:induction false} ContiguousTakes(gs: seq<Group>, len: nat)
    requires Contiguous(gs, len).Done?
    ensures var o := Contiguous(gs, len); Taken(gs, o.runs, o.groups) && Total(o.runs) == len && |o.runs| == 1
  {
    var o := Contiguous(gs, len);
    TotalCons(o.runs[0], []);
    TakenCons(gs, o.runs[0], [], o.groups);
  }

  /** A successful allocation hands out runs that add up to the request. */
  lemma {:induction false} AllocationTakes(gs: seq<Group>, len: nat)
    ensures Taken(gs, AllocationRuns(gs, len), DoAllocate(gs, len).groups)
    ensures var o := DoAllocate(gs, len); o.Done? ==> o.runs == AllocationRuns(gs, len) && Total(o.runs) == len
  {
    if Contiguous(gs, len).Done? {
      ContiguousTakes(gs, len);
    } else {
      SpillTakes(gs, len);
    }
    hide SpillRuns, Spill, FirstFit;
  }

  // ----- which regions -----

  /** The untouched groups in ascending order. */
  function Untouched(gs: seq<Group>, i: nat): (us: seq<nat>)
    requires i <= |gs|
    ensures forall j :: 0 <= j < |us| ==> i <= us[j] < |gs|
    decreases |gs| - i
  {
    if i == |gs| then [] else (if gs[i].used == 0 then [i] else []) + Untouched(gs, i + 1)
  }

  lemma {:induction false} UntouchedHead(gs: seq<Group>, i: nat)
    requires i <= |gs|
    ensures var u := FirstUntouched(gs, i);
            && (u == |gs| ==> Untouched(gs, i) == [])
            && (u < |gs| && gs[u].free > 0 ==>
                  Untouched(gs, i) == [u] + Untouched(GrabAt(gs, u, gs[u].free), i))
    decreases |gs| - i
  {
    if i < |gs| {
      var u := FirstUntouched(gs, i);
      if gs[i].used != 0 {
        UntouchedHead(gs, i + 1);
      } else if gs[u].free > 0 {
        UntouchedLocal(gs, GrabAt(gs, u, gs[u].free), i + 1);
      }
    }
  }

  lemma {:induction false} UntouchedLocal(gs: seq<Group>, hs: seq<Group>, i: nat)
    requires |gs| == |hs| && i <= |gs| && gs[i..] == hs[i..]
    ensures Untouched(gs, i) == Untouched(hs, i)
    decreases |gs| - i
  {
    if i < |gs| {
      assert gs[i] == gs[i..][0] == hs[i..][0] == hs[i];
      assert gs[i + 1..] == gs[i..][1..] == hs[i..][1..] == hs[i + 1..];
      UntouchedLocal(gs, hs, i + 1);
    }
  }

  /** All the free blocks of group i. */
  predicate WholeOf(gs: seq<Group>, r: Run, i: nat) {
    i < |gs| && r == FrontRun(gs[i], gs[i].free, i)
  }

  /** r lies in the lowest group outside filled with room for it. */
  ghost predicate LowestOutside(gs: seq<Group>, r: Run, filled: seq<nat>) {
    AtFront(gs, r) && r.bg !in filled
    && forall i :: 0 <= i < r.bg && i !in filled ==> gs[i].free < r.len
  }

  /** The documented policy: whole untouched groups in ascending order, then the remainder where it fits first. */
  ghost predicate Policy(gs: seq<Group>, runs: seq<Run>) {
    |runs| > 0
    && var n := |runs| - 1;
       var us := Untouched(gs, 0);
       && n <= |us|
       && (forall j :: 0 <= j < n ==> WholeOf(gs, runs[j], us[j]))
       && LowestOutside(gs, runs[n], us[..n])
  }

  lemma {:induction false} PolicyOne(gs: seq<Group>, len: nat)
    requires Contiguous(gs, len).Done?
    ensures Policy(gs, Contiguous(gs, len).runs)
  {
    var k := FirstFit(gs, len, 0);
    forall i | 0 <= i < k
      ensures gs[i].free < len
    {
      FirstFitIsLowest(gs, len, 0, i);
    }
  }

  lemma {:induction false} PolicyMore(gs: seq<Group>, u: nat, runs: seq<Run>)
    requires u == FirstUntouched(gs, 0) < |gs| && gs[u].free > 0
    requires Policy(GrabAt(gs, u, gs[u].free), runs) && runs[|runs| - 1].len > 0
    ensures Policy(gs, [FrontRun(gs[u], gs[u].free, u)] + runs)
  {
    var after := GrabAt(gs, u, gs[u].free);
    var us, us' := Untouched(gs, 0), Untouched(after, 0);
    UntouchedHead(gs, 0);
    var all := [FrontRun(gs[u], gs[u].free, u)] + runs;
    var n := |runs| - 1;
    NotUntouched(after, 0, u);
    hide Untouched, FirstUntouched;
    forall j | 0 <= j < n + 1
      ensures WholeOf(gs, all[j], us[j])
    {
      if j > 0 {
        assert WholeOf(after, runs[j - 1], us'[j - 1]) && us'[j - 1] in us';
      }
    }
    assert us[..n + 1] == [u] + us'[..n];
    assert LowestOutside(after, runs[n], us'[..n]);
    assert LowestOutside(gs, runs[n], us[..n + 1]);
  }

  lemma {:induction false} NotUntouched(gs: seq<Group>, i: nat, u: nat)
    requires i <= |gs| && u < |gs| && gs[u].used != 0
    ensures u !in Untouched(gs, i)
    decreases |gs| - i
  {
    if i < |gs| {
      NotUntouched(gs, i + 1, u);
    }
  }

  lemma {:induction false} SpillPolicy(gs: seq<Group>, len: nat)
    requires len > 0 && Spill(gs, len).Done?
    ensures Policy(gs, Spill(gs, len).runs)
    ensures var runs := Spill(gs, len).runs; |runs| > 0 && runs[|runs| - 1].len > 0
    decreases len
  {
    var u := FirstUntouched(gs, 0);
    SpillStep(gs, len);
    if u < |gs| && 0 < gs[u].free < len {
      var after := GrabAt(gs, u, gs[u].free);
      SpillPolicy(after, len - gs[u].free);
      PolicyMore(gs, u, Spill(after, len - gs[u].free).runs);
    } else {
      PolicyOne(gs, len);
      ContiguousRun(gs, len);
    }
    hide Spill, Contiguous, Policy, GrabAt, FirstUntouched, FrontRun;
  }

  lemma {:induction false} ContiguousRun(gs: seq<Group>, len: nat)
    requires Contiguous(gs, len).Done?
    ensures |Contiguous(gs, len).runs| == 1 && Contiguous(gs, len).runs[0].len == len
  {}

  /** Every successful allocation follows the policy. */
  lemma {:induction false} AllocationPolicy(gs: seq<Group>, len: nat)
    requires DoAllocate(gs, len).Done?
    ensures Policy(gs, DoAllocate(gs, len).runs)
  {
    if Contiguous(gs, len).Done? {
      PolicyOne(gs, len);
    } else {
      SpillPolicy(gs, len);
    }
    hide Policy, Spill;
  }
}
