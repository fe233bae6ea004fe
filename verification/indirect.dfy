/** Budgeting of indirect blocks: the closed count of indirect_blocks_needed is what the nested reservation loops take
    out of a one-region allocation. */
module Indirect {
  import opened Words
  import opened AllocatorSpec
  import opened AllocatorRuns
  import opened Regions

  // ----- the last region of a list, cut -----

  lemma {:induction false} WalkLast(done: seq<Run>, cur: Run, p: nat)
    requires p < cur.len
    ensures Walk(done + [cur], |done|, p) == (|done|, p)
  {
    assert (done + [cur])[|done|] == cur;
  }

  lemma {:induction false} CutLast(done: seq<Run>, cur: Run, p: nat)
    requires p <= cur.len
    ensures Cut(done + [cur], |done|, p) == done + [Front(cur, p), Back(cur, p)]
  {
    var runs := done + [cur];
    assert runs[|done|] == cur;
    assert runs[|done| := Front(cur, p)] == done + [Front(cur, p)];
  }

  lemma {:induction false} SplitLast(done: seq<Run>, cur: Run, p: nat)
    requires 0 < p < cur.len
    ensures Split(done + [cur], |done|, p) == SplitResult(done + [Front(cur, p)] + [Back(cur, p)], |done| + 1, |done|)
  {
    WalkLast(done, cur, p);
    CutLast(done, cur, p);
    assert done + [Front(cur, p), Back(cur, p)] == done + [Front(cur, p)] + [Back(cur, p)];
    hide Walk, Cut;
  }

  lemma {:induction false} SplitNone(done: seq<Run>, cur: Run)
    requires cur.len > 0
    ensures Split(done + [cur], |done|, 0) == SplitResult(done + [cur], |done|, |done|)
  {
    WalkLast(done, cur, 0);
    hide Walk, Cut;
  }

  /** The runs in front of the position p of the last one. */
  function FrontOf(done: seq<Run>, cur: Run, p: nat): seq<Run> {
    if p == 0 then done else done + [Front(cur, p)]
  }

  function After(r: Run, p: nat): Run
    requires p <= r.len
  {
    Run(r.block + p, r.len - p, r.bg)
  }

  /** Setting aside one block inside the last region. */
  lemma {:induction false} ReserveInside(done: seq<Run>, cur: Run, p: nat, oob: seq<Run>)
    requires p + 1 < cur.len
    ensures var l := Lists(done + [cur], |done|, p, oob);
            && Reserve(l, 1) == (Lists(FrontOf(done, cur, p) + [After(cur, p + 1)], |FrontOf(done, cur, p)|, 0,
                                       oob + [Run(cur.block + p, 1, cur.bg)]), true)
            && !Spans(l, 1)
  {
    var l := Lists(done + [cur], |done|, p, oob);
    if p > 0 {
      SplitLast(done, cur, p);
      ReserveCut(done + [Front(cur, p)], Back(cur, p), oob, l);
    } else {
      SplitNone(done, cur);
      ReserveCut(done, cur, oob, l);
    }
    hide Split;
  }

  /** The second split, once a region begins at the position. */
  lemma {:induction false} ReserveCut(front: seq<Run>, cur: Run, oob: seq<Run>, l: Lists)
    requires 1 < cur.len && l.at <= |l.runs| && l.oob == oob
    requires var first := Split(l.runs, l.at, l.partial); first.runs == front + [cur] && first.at == |front|
    ensures Reserve(l, 1) == (Lists(front + [After(cur, 1)], |front|, 0, oob + [Run(cur.block, 1, cur.bg)]), true)
    ensures !Spans(l, 1)
  {
    SplitLast(front, cur, 1);
    var runs := front + [Front(cur, 1)] + [Back(cur, 1)];
    assert Cutout(runs, |front|, |front| + 1) == front + [After(cur, 1)];
    assert runs[|front|..|front| + 1] == [Run(cur.block, 1, cur.bg)];
    hide Split, Cutout;
  }

  // ----- partition of a region -----

  ghost predicate Member(runs: seq<Run>, x: int) {
    exists i :: 0 <= i < |runs| && InRun(runs[i], x)
  }

  ghost predicate Ascending(runs: seq<Run>) {
    forall i, j :: 0 <= i < j < |runs| ==> runs[i].block + runs[i].len <= runs[j].block
  }

  /** All runs end at or in front of block e. */
  ghost predicate EndsBy(runs: seq<Run>, e: int) {
    forall i :: 0 <= i < |runs| ==> runs[i].block + runs[i].len <= e
  }

  /** Of the blocks from b to e each is in exactly one of the two lists, which hold no other block. */
  ghost predicate Divided(data: seq<Run>, oob: seq<Run>, b: int, e: int) {
    forall x :: (Member(data, x) || Member(oob, x) <==> b <= x < e) && !(Member(data, x) && Member(oob, x))
  }

  lemma {:induction false} MemberAppend(runs: seq<Run>, r: Run, x: int)
    ensures Member(runs + [r], x) <==> Member(runs, x) || InRun(r, x)
  {
    var all := runs + [r];
    if Member(all, x) {
      var i :| 0 <= i < |all| && InRun(all[i], x);
      if i < |runs| {
        assert runs[i] == all[i];
      }
    }
    if Member(runs, x) {
      var i :| 0 <= i < |runs| && InRun(runs[i], x);
      assert all[i] == runs[i];
    }
    if InRun(r, x) {
      assert all[|runs|] == r;
    }
    hide InRun;
  }

  lemma {:induction false} AscendingAppend(runs: seq<Run>, r: Run)
    requires Ascending(runs) && EndsBy(runs, r.block)
    ensures Ascending(runs + [r]) && EndsBy(runs + [r], r.block + r.len)
  {}

  lemma {:induction false} EndsLater(runs: seq<Run>, e: int, f: int)
    requires EndsBy(runs, e) && e <= f
    ensures EndsBy(runs, f)
  {}

  lemma {:induction false} TotalSnoc(runs: seq<Run>, r: Run)
    ensures Total(runs + [r]) == Total(runs) + r.len
    decreases |runs|
  {
    if runs == [] {
      assert runs + [r] == [r] && [r][1..] == [];
    } else {
      TotalSnoc(runs[1..], r);
      assert (runs + [r])[1..] == runs[1..] + [r];
    }
  }

  // ----- a one-region allocation being budgeted -----

  /** d data blocks and o other blocks of [b, b + t) are behind the read position; the last region holds the rest. */
  ghost predicate Budgeted(done: seq<Run>, cur: Run, oob: seq<Run>, b: nat, t: nat, d: nat, o: nat) {
    var p := b + d + o - cur.block;
    && 0 < cur.len && 0 <= p <= cur.len && cur.block + cur.len == b + t
    && Ascending(done) && EndsBy(done, cur.block) && Total(done) + p == d
    && Ascending(oob) && EndsBy(oob, cur.block) && Total(oob) == o
    && Divided(done, oob, b, cur.block)
  }

  ghost predicate Stage(l: Lists, b: nat, t: nat, d: nat, o: nat) {
    && l.runs != [] && l.at == |l.runs| - 1
    && Budgeted(l.runs[..l.at], l.runs[l.at], l.oob, b, t, d, o)
    && l.partial == Offset(l.runs[l.at], b + d + o)
  }

  /** The stored offset of a position: at the very end of the region it is back at 0. */
  function Offset(cur: Run, position: int): int {
    if position == cur.block + cur.len then 0 else position - cur.block
  }

  lemma {:induction false} DividedFront(done: seq<Run>, cur: Run, oob: seq<Run>, b: int, p: nat)
    requires Divided(done, oob, b, cur.block) && b <= cur.block && p <= cur.len
    ensures Divided(FrontOf(done, cur, p), oob, b, cur.block + p)
  {
    forall x
      ensures Member(FrontOf(done, cur, p), x) <==> Member(done, x) || cur.block <= x < cur.block + p
    {
      MemberAppend(done, Front(cur, p), x);
    }
    hide Member, FrontOf;
  }

  lemma {:induction false} DividedOob(done: seq<Run>, oob: seq<Run>, b: int, at: nat, bg: nat)
    requires Divided(done, oob, b, at) && b <= at
    ensures Divided(done, oob + [Run(at, 1, bg)], b, at + 1)
  {
    forall x
      ensures Member(oob + [Run(at, 1, bg)], x) <==> Member(oob, x) || x == at
    {
      MemberAppend(oob, Run(at, 1, bg), x);
    }
    hide Member;
  }

  lemma {:induction false} FrontFacts(done: seq<Run>, cur: Run, p: nat)
    requires p <= cur.len && Ascending(done) && EndsBy(done, cur.block)
    ensures var front := FrontOf(done, cur, p);
            Ascending(front) && EndsBy(front, cur.block + p) && Total(front) == Total(done) + p
  {
    AscendingAppend(done, Front(cur, p));
    TotalSnoc(done, Front(cur, p));
    EndsLater(done, cur.block, cur.block + p);
    hide Ascending, EndsBy, Total;
  }

  /** One block for the oob list, while a block behind it remains. */
  lemma {:induction false} SetAside(done: seq<Run>, cur: Run, oob: seq<Run>, b: nat, t: nat, d: nat, o: nat)
    requires Budgeted(done, cur, oob, b, t, d, o) && d + o + 2 <= t
    ensures var p := b + d + o - cur.block;
            && 0 <= p && p + 1 < cur.len
            && Budgeted(FrontOf(done, cur, p), After(cur, p + 1), oob + [Run(cur.block + p, 1, cur.bg)], b, t, d, o + 1)
  {
    var p := b + d + o - cur.block;
    BeginsAfter(done, oob, b, t, d, o, cur);
    FrontFacts(done, cur, p);
    DividedFront(done, cur, oob, b, p);
    OobFacts(FrontOf(done, cur, p), oob, b, cur.block, cur.block + p, cur.bg);
    hide Ascending, EndsBy, Total, Divided, FrontOf;
  }

  lemma {:induction false} OobFacts(front: seq<Run>, oob: seq<Run>, b: nat, e: nat, at: nat, bg: nat)
    requires Ascending(oob) && EndsBy(oob, e) && e <= at && b <= at && EndsBy(front, at) && Divided(front, oob, b, at)
    ensures var more := oob + [Run(at, 1, bg)];
            && Ascending(more) && EndsBy(more, at + 1) && Total(more) == Total(oob) + 1
            && Divided(front, more, b, at + 1) && EndsBy(front, at + 1)
  {
    hide Ascending, EndsBy, Total, Divided;
    DividedOob(front, oob, b, at, bg);
    EndsLater(oob, e, at);
    AscendingAppend(oob, Run(at, 1, bg));
    TotalSnoc(oob, Run(at, 1, bg));
    EndsLater(front, at, at + 1);
  }

  lemma {:induction false} BeginsAfter(done: seq<Run>, oob: seq<Run>, b: nat, t: nat, d: nat, o: nat, cur: Run)
    requires Budgeted(done, cur, oob, b, t, d, o)
    ensures b <= cur.block
  {
    hide Ascending, EndsBy, Divided;
  }

  lemma {:induction false} LastOf(l: Lists)
    requires l.runs != [] && l.at == |l.runs| - 1
    ensures l.runs == l.runs[..l.at] + [l.runs[l.at]]
  {}

  lemma {:induction false} OpenStage(l: Lists, b: nat, t: nat, d: nat, o: nat)
    requires Stage(l, b, t, d, o)
    ensures l.runs != [] && l.at == |l.runs| - 1
    ensures var done, cur := l.runs[..l.at], l.runs[l.at];
            && Budgeted(done, cur, l.oob, b, t, d, o)
            && l == Lists(done + [cur], |done|, l.partial, l.oob) && l.partial == Offset(cur, b + d + o)
            && cur.block + cur.len == b + t
  {
    LastOf(l);
    hide Ascending, EndsBy, Divided, Total;
  }

  lemma {:induction false} MakeStage(done: seq<Run>, cur: Run, oob: seq<Run>, partial: nat, b: nat, t: nat, d: nat, o: nat)
    requires Budgeted(done, cur, oob, b, t, d, o) && partial == Offset(cur, b + d + o)
    ensures Stage(Lists(done + [cur], |done|, partial, oob), b, t, d, o)
  {
    assert (done + [cur])[..|done|] == done;
    hide Budgeted;
  }

  /** The lists once the block at the position is set aside. */
  ghost function Reserved1(l: Lists, b: nat, d: nat, o: nat): Lists {
    if l.runs == [] || l.at != |l.runs| - 1 then l
    else
      var done, cur := l.runs[..l.at], l.runs[l.at];
      var p := b + d + o - cur.block;
      if p < 0 || p + 1 > cur.len then l
      else Lists(FrontOf(done, cur, p) + [After(cur, p + 1)], |FrontOf(done, cur, p)|, 0,
                 l.oob + [Run(cur.block + p, 1, cur.bg)])
  }

  lemma {:induction false} Reserved1Is(done: seq<Run>, cur: Run, partial: nat, oob: seq<Run>, b: nat, d: nat, o: nat)
    requires 0 <= b + d + o - cur.block && b + d + o - cur.block + 1 < cur.len
    ensures var p := b + d + o - cur.block;
            Reserved1(Lists(done + [cur], |done|, partial, oob), b, d, o)
            == Lists(FrontOf(done, cur, p) + [After(cur, p + 1)], |FrontOf(done, cur, p)|, 0,
                     oob + [Run(cur.block + p, 1, cur.bg)])
  {
    assert (done + [cur])[..|done|] == done;
    hide FrontOf;
  }

  lemma {:induction false} OffsetInside(cur: Run, p: nat)
    requires p < cur.len
    ensures Offset(cur, cur.block + p) == p
  {}

  lemma {:induction false} ReservesOne(l: Lists, b: nat, t: nat, d: nat, o: nat)
    requires Stage(l, b, t, d, o) && d + o + 2 <= t
    ensures l.at <= |l.runs| && Reserve(l, 1) == (Reserved1(l, b, d, o), true) && !Spans(l, 1)
  {
    hide *;
    OpenStage(l, b, t, d, o);
    var done, cur := l.runs[..l.at], l.runs[l.at];
    var p := b + d + o - cur.block;
    SetAside(done, cur, l.oob, b, t, d, o);
    OffsetInside(cur, p);
    ReserveInside(done, cur, p, l.oob);
    Reserved1Is(done, cur, l.partial, l.oob, b, d, o);
  }

  lemma {:induction false} OffsetStart(cur: Run, position: int)
    requires position == cur.block && cur.len > 0
    ensures Offset(cur, position) == 0
  {}

  lemma {:induction false} StageReserved(l: Lists, b: nat, t: nat, d: nat, o: nat)
    requires Stage(l, b, t, d, o) && d + o + 2 <= t
    ensures Stage(Reserved1(l, b, d, o), b, t, d, o + 1)
  {
    hide *;
    OpenStage(l, b, t, d, o);
    var done, cur := l.runs[..l.at], l.runs[l.at];
    var p := b + d + o - cur.block;
    SetAside(done, cur, l.oob, b, t, d, o);
    Reserved1Is(done, cur, l.partial, l.oob, b, d, o);
    AfterIs(cur, p + 1);
    OffsetStart(After(cur, p + 1), b + d + o + 1);
    MakeStage(FrontOf(done, cur, p), After(cur, p + 1), l.oob + [Run(cur.block + p, 1, cur.bg)], 0, b, t, d, o + 1);
  }

  lemma {:induction false} AfterIs(r: Run, p: nat)
    requires p <= r.len
    ensures After(r, p).block == r.block + p && After(r, p).len == r.len - p
  {}

  /** reserve_oob_blocks(1) inside the budget. */
  lemma {:induction false} StageReserve(l: Lists, b: nat, t: nat, d: nat, o: nat)
    requires Stage(l, b, t, d, o) && d + o + 2 <= t
    ensures l.at <= |l.runs| && Reserve(l, 1).1 && !Spans(l, 1) && Stage(Reserve(l, 1).0, b, t, d, o + 1)
  {
    hide *;
    ReservesOne(l, b, t, d, o);
    StageReserved(l, b, t, d, o);
  }

  /** advance_blocks inside the budget: the position moves, and nothing else. */
  lemma {:induction false} StageAdvance(l: Lists, b: nat, t: nat, d: nat, o: nat, count: nat)
    requires Stage(l, b, t, d, o) && 0 < count && d + o + count <= t
    ensures l.at < |l.runs| && l.partial <= l.runs[l.at].len
    ensures var (partial, ok) := Advance(l.runs, l.at, l.partial, count);
            ok && Stage(l.(partial := partial), b, t, d + count, o)
  {
    var done, cur := l.runs[..l.at], l.runs[l.at];
    var p := b + d + o - cur.block;
    assert l.partial == p && p + count <= cur.len;
    BudgetAdvance(done, cur, l.oob, b, t, d, o, count);
    if cur.len > p + count {
      assert Advance(l.runs, l.at, p, count) == (p + count, true);
    } else {
      assert Advance(l.runs, l.at, p, count) == Advance(l.runs, l.at + 1, 0, 0) == (0, true);
    }
    hide Budgeted;
  }

  lemma {:induction false} BudgetAdvance(done: seq<Run>, cur: Run, oob: seq<Run>, b: nat, t: nat, d: nat, o: nat, count: nat)
    requires Budgeted(done, cur, oob, b, t, d, o) && d + o + count <= t
    ensures Budgeted(done, cur, oob, b, t, d + count, o)
  {
    hide Ascending, EndsBy, Divided, Total;
  }

  lemma {:induction false} StageStart(b: nat, t: nat, bg: nat)
    requires t > 0
    ensures Stage(Lists([Run(b, t, bg)], 0, 0, []), b, t, 0, 0)
  {
    assert [Run(b, t, bg)][..0] == [];
  }

  /** What is left at the end: the list holds the data, the oob list the rest, both in ascending order, and together
      they are the region. */
  lemma {:induction false} StageEnd(l: Lists, b: nat, t: nat, d: nat, o: nat)
    requires Stage(l, b, t, d, o) && d + o == t
    ensures Total(l.runs) == d && Total(l.oob) == o && Ascending(l.runs) && Ascending(l.oob)
    ensures Divided(l.runs, l.oob, b, b + t)
  {
    var done, cur := l.runs[..l.at], l.runs[l.at];
    LastOf(l);
    BeginsAfter(done, l.oob, b, t, d, o, cur);
    TotalSnoc(done, cur);
    AscendingAppend(done, cur);
    DividedFront(done, cur, l.oob, b, cur.len);
    assert Front(cur, cur.len) == cur;
    assert FrontOf(done, cur, cur.len) == l.runs;
    hide Ascending, EndsBy, Divided, Total, FrontOf;
  }

  lemma {:induction false} StageNoWrap(l: Lists, b: nat, t: nat, d: nat, o: nat)
    requires Stage(l, b, t, d, o) && b + t <= 0x1_0000_0000
    ensures NoWrap(l.runs)
  {
    hide Ascending, Divided, Total;
    forall i | 0 <= i < |l.runs|
      ensures l.runs[i].block + l.runs[i].len <= 0x1_0000_0000
    {
      if i < l.at {
        assert l.runs[..l.at][i] == l.runs[i];
      }
    }
  }

  // ----- the reservation loops -----

  /** The allocation shows lists at a stage of its budget. */
  ghost predicate InStage(alloc: BlockAllocation, l: Lists, b: nat, t: nat, d: nat, o: nat)
    reads alloc, alloc.list, alloc.oobList, alloc.Nodes()
  {
    alloc.Shows(l) && PrevOk(alloc.list.nodes, l.at) && Stage(l, b, t, d, o) && b + t <= 0x1_0000_0000
  }

  lemma {:induction false} CanReserve(alloc: BlockAllocation, l: Lists, b: nat, t: nat, d: nat, o: nat)
    requires InStage(alloc, l, b, t, d, o) && d + o + 2 <= t
    ensures l.at <= |l.runs| && alloc.Ready(l, 1) && Reserve(l, 1).1 && !Spans(l, 1) && b + t <= 0x1_0000_0000
    ensures Stage(Reserve(l, 1).0, b, t, d, o + 1)
  {
    StageReserve(l, b, t, d, o);
    StageNoWrap(l, b, t, d, o);
    hide Stage, Reserve, Spans, NoWrap, RunsOf;
  }

  /** reserve_oob_blocks(1). */
  method ReserveOne(alloc: BlockAllocation, ghost l: Lists, ghost b: nat, ghost t: nat, ghost d: nat, ghost o: nat)
    returns (ok: bool, ghost after: Lists)
    requires InStage(alloc, l, b, t, d, o) && d + o + 2 <= t
    modifies alloc.list, alloc.oobList, alloc.Nodes()
    ensures ok && InStage(alloc, after, b, t, d, o + 1) && fresh(alloc.Nodes() - old(alloc.Nodes()))
  {
    hide *;
    CanReserve(alloc, l, b, t, d, o);
    after := Reserve(l, 1).0;
    ok := alloc.ReserveNodes(1, l);
    StillInStage(alloc, after, b, t, d, o + 1);
  }

  lemma StillInStage(alloc: BlockAllocation, l: Lists, b: nat, t: nat, d: nat, o: nat)
    requires alloc.Shows(l) && PrevOk(alloc.list.nodes, l.at) && Stage(l, b, t, d, o) && b + t <= 0x1_0000_0000
    ensures InStage(alloc, l, b, t, d, o)
  {}

  /** advance_blocks */
  method AdvanceBlocks(alloc: BlockAllocation, count: nat, ghost l: Lists, ghost b: nat, ghost t: nat, ghost d: nat,
                       ghost o: nat) returns (ok: bool, ghost after: Lists)
    requires InStage(alloc, l, b, t, d, o) && 0 < count && d + o + count <= t
    modifies alloc.list`partialIter
    ensures ok && InStage(alloc, after, b, t, d + count, o)
  {
    hide *;
    CanAdvance(alloc, l, b, t, d, o, count);
    after := l.(partial := Advance(l.runs, l.at, l.partial, count).0);
    ok := alloc.AdvanceBlocks(count, l);
    StillInStage(alloc, after, b, t, d + count, o);
  }

  lemma {:induction false} CanAdvance(alloc: BlockAllocation, l: Lists, b: nat, t: nat, d: nat, o: nat, count: nat)
    requires InStage(alloc, l, b, t, d, o) && 0 < count && d + o + count <= t
    ensures l.at < |l.runs| && l.partial <= l.runs[l.at].len && b + t <= 0x1_0000_0000
    ensures alloc.Shows(l) && PrevOk(alloc.list.nodes, l.at)
    ensures var (partial, ok) := Advance(l.runs, l.at, l.partial, count);
            ok && Stage(l.(partial := partial), b, t, d + count, o)
  {
    StageAdvance(l, b, t, d, o, count);
    hide Stage, Advance, BlockAllocation.Shows;
  }

  /** reserve_indirect_block */
  method ReserveIndirectBlock(alloc: BlockAllocation, len: nat, ghost l: Lists, ghost b: nat, ghost t: nat, ghost d: nat,
                              ghost o: nat) returns (ok: bool, ghost after: Lists)
    requires InStage(alloc, l, b, t, d, o) && 0 < len && d + o + 1 + len <= t
    modifies alloc.list, alloc.oobList, alloc.Nodes()
    ensures ok && InStage(alloc, after, b, t, d + len, o + 1) && fresh(alloc.Nodes() - old(alloc.Nodes()))
  {
    hide InStage;
    ok, after := ReserveOne(alloc, l, b, t, d, o);
    if !ok {
      return;
    }
    ok, after := AdvanceBlocks(alloc, len, after, b, t, d, o + 1);
  }

  lemma {:induction false} OneGroupLess(len: nat, ind: nat)
    requires 0 < ind && 0 < len
    ensures var n := if ind < len then ind else len; DivRoundUp(len - n, ind) + 1 == DivRoundUp(len, ind)
  {
    var n := if ind < len then ind else len;
    var q := DivRoundUp(len - n, ind);
    DivRoundUpBounds(len - n, ind);
    assert (q + 1) * ind == q * ind + ind;
    if n == len {
      DivRoundUpUnique(0, ind, 0);
    }
    DivRoundUpUnique(len, ind, q + 1);
  }

  /** reserve_dindirect_block: the double block, then an indirect block in front of every group of data blocks. */
  method ReserveDindirectBlock(alloc: BlockAllocation, len: nat, ind: nat, ghost l: Lists, ghost b: nat, ghost t: nat,
                               ghost d: nat, ghost o: nat) returns (ok: bool, ghost after: Lists)
    requires InStage(alloc, l, b, t, d, o) && 0 < len && 0 < ind && d + o + 1 + DivRoundUp(len, ind) + len <= t
    modifies alloc.list, alloc.oobList, alloc.Nodes()
    ensures ok && InStage(alloc, after, b, t, d + len, o + 1 + DivRoundUp(len, ind))
    ensures fresh(alloc.Nodes() - old(alloc.Nodes()))
  {
    hide InStage, DivRoundUp;
    ok, after := ReserveOne(alloc, l, b, t, d, o);
    if !ok {
      return;
    }
    var left: int := len;
    ghost var data: nat, other: nat := d, o + 1;
    while left > 0
      invariant 0 <= left && data + left == d + len && other + DivRoundUp(left, ind) == o + 1 + DivRoundUp(len, ind)
      invariant ok && InStage(alloc, after, b, t, data, other) && fresh(alloc.Nodes() - old(alloc.Nodes()))
    {
      var indBlockLen := if ind < left then ind else left;
      OneGroupLess(left, ind);
      ok, after := ReserveIndirectBlock(alloc, indBlockLen, after, b, t, data, other);
      data, other, left := data + indBlockLen, other + 1, left - indBlockLen;
    }
    NothingLeft(ind);
  }

  lemma {:induction false} NothingLeft(ind: nat)
    requires 0 < ind
    ensures DivRoundUp(0, ind) == 0
  {
    DivRoundUpUnique(0, ind, 0);
  }

  const DIRECT: nat := 12

  /** The closed formula of indirect_blocks_needed, up to the double-indirect limit. */
  function Needed(len: nat, ind: nat, dind: nat): nat
    requires 0 < ind && 0 < dind
  {
    if len <= DIRECT then 0
    else DivRoundUp(len - DIRECT, ind) + (if len - DIRECT <= ind then 0 else DivRoundUp(len - DIRECT - ind, dind))
  }

  /** DIV_ROUND_UP on unsigned words. */
  function WordDivRoundUp(x: u32, y: u32): nat
    requires y > 0
  {
    (x + y - 1) % TWO32 / y
  }

  lemma NoWrapDiv(x: u32, y: u32)
    requires y > 0 && x + y <= TWO32
    ensures WordDivRoundUp(x, y) == DivRoundUp(x, y)
  {
    assert (x + y - 1) % TWO32 == x + y - 1;
  }

  /** indirect_blocks_needed; crash reports a division by zero, or a request too large for triple indirection. */
  method IndirectBlocksNeeded(len: u32, ind: u32, dind: u32, tind: u32) returns (needed: nat, crash: bool)
    requires 0 < ind && 0 < dind
    ensures len <= DIRECT + ind + dind ==> !crash
    ensures len <= DIRECT + ind + dind && len + ind <= TWO32 && len + dind <= TWO32 ==> needed == Needed(len, ind, dind)
    ensures len > DIRECT + ind + dind ==> (crash <==> tind == 0 || len > DIRECT + ind + dind + tind)
  {
    hide DivRoundUp, WordDivRoundUp;
    crash := false;
    needed := 0;
    var left: u32 := len;
    if left <= 12 {
      return;
    }
    left := left - 12;
    if len + ind <= TWO32 {
      NoWrapDiv(left, ind);
    }
    needed := needed + WordDivRoundUp(left, ind);
    if left <= ind {
      return;
    }
    left := left - ind;
    if len + dind <= TWO32 {
      NoWrapDiv(left, dind);
    }
    needed := needed + WordDivRoundUp(left, dind);
    if left <= dind {
      return;
    }
    left := left - dind;
    if tind == 0 {
      return needed, true;
    }
    needed := needed + WordDivRoundUp(left, tind);
    if left <= tind {
      return;
    }
    crash := true;
  }

  /** What the nested loops consume besides data. */
  lemma {:induction false} Consumption(len: nat, ind: nat, dind: nat)
    requires 0 < ind && 0 < dind && len <= DIRECT + ind + dind
    ensures DIRECT < len <= DIRECT + ind ==> Needed(len, ind, dind) == 1
    ensures len > DIRECT + ind ==> Needed(len, ind, dind) == 2 + DivRoundUp(len - DIRECT - ind, ind)
  {
    if len > DIRECT {
      var m := len - DIRECT;
      OneGroupLess(m, ind);
      NothingLeft(ind);
      if m > ind {
        DivRoundUpUnique(m - ind, dind, 1);
      }
    }
    hide DivRoundUp;
  }

  /** reserve_all_indirect_blocks on an allocation of one region: it always succeeds, and what it takes is exactly
      what indirect_blocks_needed announced. */
  method ReserveAllIndirectBlocks(alloc: BlockAllocation, len: nat, ind: nat, dind: nat, ghost b: nat, ghost bg: nat)
    returns (ok: bool, ghost after: Lists)
    requires 0 < len <= DIRECT + ind + dind && 0 < ind && 0 < dind
    requires var t := len + Needed(len, ind, dind);
             InStage(alloc, Lists([Run(b, t, bg)], 0, 0, []), b, t, 0, 0)
    modifies alloc.list, alloc.oobList, alloc.Nodes()
    ensures ok && alloc.Shows(after)
    ensures Total(after.runs) == len && Total(after.oob) == Needed(len, ind, dind)
    ensures Ascending(after.runs) && Ascending(after.oob)
    ensures Divided(after.runs, after.oob, b, b + len + Needed(len, ind, dind))
  {
    hide InStage, DivRoundUp, Stage, Ascending, Divided, Total, BlockAllocation.Shows;
    ghost var t := len + Needed(len, ind, dind);
    after := Lists([Run(b, t, bg)], 0, 0, []);
    Consumption(len, ind, dind);
    hide Needed;
    if len <= 12 {
      NoneNeeded(len, ind, dind, b, bg);
      InStageShows(alloc, after, b, t, 0, 0);
      return true, after;
    }
    var left := len - 12;
    ok, after := AdvanceBlocks(alloc, 12, after, b, t, 0, 0);
    var indBlockLen := if ind < left then ind else left;
    ok, after := ReserveIndirectBlock(alloc, indBlockLen, after, b, t, 12, 0);
    left := left - indBlockLen;
    if left == 0 {
      InStageEnd(alloc, after, b, t, len, 1);
      return;
    }
    var dindBlockLen := if dind < left then dind else left;
    ok, after := ReserveDindirectBlock(alloc, dindBlockLen, ind, after, b, t, 12 + ind, 1);
    InStageEnd(alloc, after, b, t, len, Needed(len, ind, dind));
  }

  lemma {:induction false} InStageEnd(alloc: BlockAllocation, l: Lists, b: nat, t: nat, d: nat, o: nat)
    requires InStage(alloc, l, b, t, d, o) && d + o == t
    ensures alloc.Shows(l) && Total(l.runs) == d && Total(l.oob) == o && Ascending(l.runs) && Ascending(l.oob)
    ensures Divided(l.runs, l.oob, b, b + t)
  {
    StageEnd(l, b, t, d, o);
    hide Stage, BlockAllocation.Shows, Ascending, Divided, Total;
  }

  lemma InStageShows(alloc: BlockAllocation, l: Lists, b: nat, t: nat, d: nat, o: nat)
    requires InStage(alloc, l, b, t, d, o)
    ensures alloc.Shows(l)
  {}

  lemma {:induction false} NoneNeeded(len: nat, ind: nat, dind: nat, b: nat, bg: nat)
    requires 0 < len <= 12 && 0 < ind && 0 < dind
    ensures Needed(len, ind, dind) == 0
    ensures Total([Run(b, len, bg)]) == len && Total([]) == 0 && Ascending([Run(b, len, bg)]) && Ascending([])
    ensures Divided([Run(b, len, bg)], [], b, b + len)
  {
    forall x
      ensures Member([Run(b, len, bg)], x) <==> b <= x < b + len
    {
      MemberAppend([], Run(b, len, bg), x);
      assert [] + [Run(b, len, bg)] == [Run(b, len, bg)];
    }
    TotalSnoc([], Run(b, len, bg));
    assert [] + [Run(b, len, bg)] == [Run(b, len, bg)];
  }

  /** The budget starts from any fresh allocation of one region. */
  lemma {:induction false} FreshInStage(alloc: BlockAllocation, b: nat, t: nat, bg: nat)
    requires alloc.Shows(Lists([Run(b, t, bg)], 0, 0, [])) && PrevOk(alloc.list.nodes, 0)
    requires 0 < t && b + t <= 0x1_0000_0000
    ensures InStage(alloc, Lists([Run(b, t, bg)], 0, 0, []), b, t, 0, 0)
  {
    StageStart(b, t, bg);
    hide Stage, BlockAllocation.Shows;
  }

  /** blocks_per_dind and blocks_per_tind, in unsigned 32-bit arithmetic. */
  function Squared(x: u32): u32 { x * x % TWO32 }

  /** For 1K, 2K and 4K blocks the triple-indirect size wraps to zero, so any longer file crashes the count. */
  lemma TripleWraps(blockSize: u32)
    requires blockSize in {1024, 2048, 4096}
    ensures var dind := Squared(blockSize / 4); 0 < dind && Squared(dind) == 0
  {}
}
