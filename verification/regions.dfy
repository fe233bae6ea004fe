/** Allocations: doubly linked lists of regions with a read position, and the operations that split and move them. */
module Regions {
  import opened Words
  import opened AllocatorSpec

  /** A node of a region list. */
  class Region {
    var block: u32
    var len: u32
    var bg: nat
    var next: Region?
    var prev: Region?

    constructor (block: u32, len: u32, bg: nat)
      ensures this.block == block && this.len == len && this.bg == bg && next == null && prev == null
    {
      this.block, this.len, this.bg, next, prev := block, len, bg, null, null;
    }

    ghost function View(): Run
      reads this`block, this`len, this`bg
    {
      Run(block, len, bg)
    }
  }

  // ----- lists of regions -----

  ghost predicate Distinct(nodes: seq<Region>) {
    forall i, j :: 0 <= i < j < |nodes| ==> nodes[i] != nodes[j]
  }

  ghost function NodeAt(nodes: seq<Region>, i: int): Region? {
    if 0 <= i < |nodes| then nodes[i] else null
  }

  /** The nodes in the order of their next pointers. */
  ghost predicate Linked(nodes: seq<Region>)
    reads nodes`next
  {
    Distinct(nodes) && forall i :: 0 <= i < |nodes| ==> nodes[i].next == NodeAt(nodes, i + 1)
  }

  /** The prev pointers match too. */
  ghost predicate BackLinked(nodes: seq<Region>)
    reads nodes`prev
  {
    forall i :: 0 <= i < |nodes| ==> nodes[i].prev == NodeAt(nodes, i - 1)
  }

  ghost function RunsOf(nodes: seq<Region>): (runs: seq<Run>)
    reads nodes`block, nodes`len, nodes`bg
    ensures |runs| == |nodes|
  {
    if nodes == [] then [] else RunsOf(nodes[..|nodes| - 1]) + [nodes[|nodes| - 1].View()]
  }

  ghost predicate IsList(first: Region?, nodes: seq<Region>, runs: seq<Run>)
    reads nodes
  {
    Linked(nodes) && BackLinked(nodes) && first == NodeAt(nodes, 0) && RunsOf(nodes) == runs
  }

  // ----- taking one node out, or putting one in -----

  /** The chain goes around node k. */
  ghost predicate SkipLinked(all: seq<Region>, k: nat)
    reads all`next
  {
    Distinct(all)
    && (0 < k <= |all| ==> all[k - 1].next == NodeAt(all, k + 1))
    && forall i :: 0 <= i < |all| && i != k && i != k - 1 ==> all[i].next == NodeAt(all, i + 1)
  }

  lemma {:induction false} RunAt(nodes: seq<Region>, i: nat)
    requires i < |nodes|
    ensures RunsOf(nodes)[i] == nodes[i].View()
  {
    if i < |nodes| - 1 {
      RunAt(nodes[..|nodes| - 1], i);
    }
  }

  function Without<T>(all: seq<T>, k: nat): (r: seq<T>)
    requires k < |all|
    ensures |r| == |all| - 1
  {
    all[..k] + all[k + 1..]
  }

  function Skip(k: nat, i: nat): nat { if i < k then i else i + 1 }

  lemma WithoutAt<T>(all: seq<T>, k: nat, i: nat)
    requires k < |all| && i < |all| - 1
    ensures Without(all, k)[i] == all[Skip(k, i)]
  {}

  lemma RunsRemoved(all: seq<Region>, k: nat)
    requires k < |all|
    ensures RunsOf(Without(all, k)) == Without(RunsOf(all), k)
  {
    hide RunsOf, Without;
    forall i | 0 <= i < |all| - 1
      ensures RunsOf(Without(all, k))[i] == Without(RunsOf(all), k)[i]
    {
      WithoutAt(all, k, i);
      WithoutAt(RunsOf(all), k, i);
      RunAt(Without(all, k), i);
      RunAt(all, Skip(k, i));
    }
  }

  lemma DistinctRemoved(all: seq<Region>, k: nat)
    requires k < |all| && Distinct(all)
    ensures Distinct(Without(all, k))
  {
    hide Without;
    forall i, j | 0 <= i < j < |all| - 1
      ensures Without(all, k)[i] != Without(all, k)[j]
    {
      WithoutAt(all, k, i);
      WithoutAt(all, k, j);
    }
  }

  lemma SkipStep(all: seq<Region>, k: nat, i: nat)
    requires k < |all| && SkipLinked(all, k) && i < |all| - 1
    ensures all[Skip(k, i)].next == if i + 1 < |all| - 1 then all[Skip(k, i + 1)] else null
  {
    hide Distinct;
  }

  lemma NextOfRest(all: seq<Region>, k: nat, i: nat)
    requires k < |all| && SkipLinked(all, k) && i < |all| - 1
    ensures Without(all, k)[i].next == NodeAt(Without(all, k), i + 1)
  {
    SkipStep(all, k, i);
    WithoutAt(all, k, i);
    if i + 1 < |all| - 1 {
      WithoutAt(all, k, i + 1);
    }
    hide SkipLinked, Without, Skip;
  }

  lemma RemovedLinked(all: seq<Region>, k: nat)
    requires k < |all| && SkipLinked(all, k)
    ensures Linked(Without(all, k)) && RunsOf(Without(all, k)) == Without(RunsOf(all), k)
  {
    var rest := Without(all, k);
    assert Distinct(all);
    RunsRemoved(all, k);
    DistinctRemoved(all, k);
    hide RunsOf, Distinct, Without, SkipLinked, NodeAt;
    forall i | 0 <= i < |rest|
      ensures rest[i].next == NodeAt(rest, i + 1)
    {
      NextOfRest(all, k, i);
    }
  }

  lemma RunsAppended(all: seq<Region>, reg: Region)
    ensures RunsOf(all + [reg]) == RunsOf(all) + [reg.View()]
  {
    assert (all + [reg])[..|all|] == all;
  }

  /** The chain ends at reg instead of null. */
  ghost predicate LeadsTo(all: seq<Region>, reg: Region)
    reads all`next
  {
    (|all| > 0 ==> all[|all| - 1].next == reg)
    && forall i :: 0 <= i < |all| - 1 ==> all[i].next == NodeAt(all, i + 1)
  }

  lemma ChainReady(all: seq<Region>, reg: Region)
    requires Linked(all) && reg !in all
    ensures Distinct(all + [reg])
    ensures forall i :: 0 <= i < |all| - 1 ==> all[i].next == NodeAt(all, i + 1) && all[i] != all[|all| - 1]
  {}

  lemma OneLinked(reg: Region)
    requires reg.next == null
    ensures Linked([reg])
  {}

  lemma AppendedLinked(all: seq<Region>, reg: Region)
    requires Distinct(all + [reg]) && LeadsTo(all, reg) && reg.next == null
    ensures Linked(all + [reg])
  {
    var longer := all + [reg];
    hide Distinct;
    forall i | 0 <= i < |longer|
      ensures longer[i].next == NodeAt(longer, i + 1)
    {
      if i < |all| {
        assert longer[i] == all[i];
      }
    }
  }

  lemma NeighboursRemoved(all: seq<Region>, k: nat)
    requires k < |all|
    ensures k + 1 < |all| ==> Without(all, k)[k] == all[k + 1]
    ensures NodeAt(Without(all, k), k - 1) == NodeAt(all, k - 1)
  {}

  /** Only the first region is at the head, and behind it the next one becomes the first. */
  lemma HeadRemoved(all: seq<Region>, k: nat)
    requires Linked(all) && k < |all|
    ensures NodeAt(all, 0) == all[k] <==> k == 0
    ensures NodeAt(Without(all, k), 0) == if k == 0 then all[k].next else NodeAt(all, 0)
  {}

  // ----- splitting: a node put behind another -----

  function Insert<T>(all: seq<T>, k: nat, x: T): (r: seq<T>)
    requires k <= |all|
    ensures |r| == |all| + 1
  {
    all[..k] + [x] + all[k..]
  }

  lemma InsertAt<T>(all: seq<T>, k: nat, x: T, i: nat)
    requires k <= |all| && i <= |all|
    ensures Insert(all, k, x)[i] == if i == k then x else all[if i < k then i else i - 1]
  {}

  /** The chain passes through x behind node k. */
  ghost predicate Through(all: seq<Region>, k: nat, x: Region)
    reads all`next, x`next
  {
    k < |all| && all[k].next == x && x.next == NodeAt(all, k + 1)
    && forall i :: 0 <= i < |all| && i != k ==> all[i].next == NodeAt(all, i + 1)
  }

  lemma DistinctInserted(all: seq<Region>, k: nat, x: Region)
    requires k <= |all| && Distinct(all) && x !in all
    ensures Distinct(Insert(all, k, x))
  {
    hide Insert;
    forall i, j | 0 <= i < j <= |all|
      ensures Insert(all, k, x)[i] != Insert(all, k, x)[j]
    {
      InsertAt(all, k, x, i);
      InsertAt(all, k, x, j);
    }
  }

  lemma NextOfInserted(all: seq<Region>, k: nat, x: Region, i: nat)
    requires Through(all, k, x) && i <= |all|
    ensures Insert(all, k + 1, x)[i].next == NodeAt(Insert(all, k + 1, x), i + 1)
  {
    InsertAt(all, k + 1, x, i);
    if i < |all| {
      InsertAt(all, k + 1, x, i + 1);
    }
    hide Insert;
  }

  lemma InsertedLinked(all: seq<Region>, k: nat, x: Region)
    requires Distinct(all) && x !in all && Through(all, k, x)
    ensures Linked(Insert(all, k + 1, x))
  {
    var longer := Insert(all, k + 1, x);
    DistinctInserted(all, k + 1, x);
    hide Distinct, Insert, Through, NodeAt;
    forall i | 0 <= i < |longer|
      ensures longer[i].next == NodeAt(longer, i + 1)
    {
      NextOfInserted(all, k, x, i);
    }
  }

  lemma RunsInserted(all: seq<Region>, k: nat, x: Region)
    requires k <= |all|
    ensures RunsOf(Insert(all, k, x)) == Insert(RunsOf(all), k, x.View())
  {
    hide RunsOf, Insert;
    forall i | 0 <= i <= |all|
      ensures RunsOf(Insert(all, k, x))[i] == Insert(RunsOf(all), k, x.View())[i]
    {
      InsertAt(all, k, x, i);
      InsertAt(RunsOf(all), k, x.View(), i);
      RunAt(Insert(all, k, x), i);
      if i != k {
        RunAt(all, if i < k then i else i - 1);
      }
    }
  }

  /** The region behind the first len blocks from region k on, and how far into it they reach. */
  function Walk(runs: seq<Run>, k: nat, len: nat): (r: (nat, nat))
    requires k <= |runs|
    ensures k <= r.0 <= |runs| && (r.0 < |runs| ==> r.1 < runs[r.0].len) && r.1 <= len
    decreases |runs| - k
  {
    if k == |runs| || len < runs[k].len then (k, len) else Walk(runs, k + 1, len - runs[k].len)
  }

  function Front(r: Run, len: nat): Run { Run(r.block, len, r.bg) }

  function Back(r: Run, len: nat): Run
    requires len <= r.len
  {
    Run(r.block + len, r.len - len, r.bg)
  }

  /** Region k cut after len blocks. */
  function Cut(runs: seq<Run>, k: nat, len: nat): (r: seq<Run>)
    requires k < |runs| && len <= runs[k].len
    ensures |r| == |runs| + 1
  {
    Insert(runs[k := Front(runs[k], len)], k + 1, Back(runs[k], len))
  }

  lemma CutIs(runs: seq<Run>, k: nat, len: nat)
    requires k < |runs| && len <= runs[k].len
    ensures Cut(runs, k, len) == Insert(runs[k := Front(runs[k], len)], k + 1, Back(runs[k], len))
  {}

  lemma RunsAll(nodes: seq<Region>)
    ensures forall i :: 0 <= i < |nodes| ==> RunsOf(nodes)[i] == nodes[i].View()
  {
    hide RunsOf;
    forall i | 0 <= i < |nodes|
      ensures RunsOf(nodes)[i] == nodes[i].View()
    {
      RunAt(nodes, i);
    }
  }

  /** The block numbers of a run are words. */
  ghost predicate NoWrap(runs: seq<Run>) {
    forall i :: 0 <= i < |runs| ==> runs[i].block + runs[i].len <= 0x1_0000_0000
  }

  lemma WalkInside(runs: seq<Run>, at: nat, len: nat)
    requires at <= |runs|
    ensures var (k, rest) := Walk(runs, at, len); at <= k <= |runs| && (k < |runs| ==> rest < runs[k].len)
  {}

  /** What do_split_allocation leaves: the runs, the read position, and the region it returns (-1 for none). */
  datatype SplitResult = SplitResult(runs: seq<Run>, at: nat, middle: int)

  function Split(runs: seq<Run>, at: nat, len: nat): (s: SplitResult)
    requires at <= |runs|
    ensures at <= s.at <= |s.runs| && s.middle <= |s.runs|
  {
    var (k, rest) := Walk(runs, at, len);
    if k < |runs| && rest > 0 then SplitResult(Cut(runs, k, rest), k + 1, at)
    else SplitResult(runs, at, if rest == 0 then k else -1)
  }

  /** An allocation as values: its regions, the read position in them, and the regions set aside. */
  datatype Lists = Lists(runs: seq<Run>, at: nat, partial: nat, oob: seq<Run>)

  /** reserve_oob_blocks: a split at the read position, a split n blocks on, and the regions between them move. When
      the second split falls between two regions, everything behind it moves instead. */
  function Reserve(l: Lists, n: nat): (r: (Lists, bool))
    requires l.at <= |l.runs|
    ensures r.0.at <= |r.0.runs|
  {
    var s := SplitTwice(l, n);
    if s.middle < 0 || s.middle == |s.runs| then (Lists(s.runs, s.at, 0, l.oob), false)
    else
      var m, end := s.middle, if s.middle <= s.at then s.at else |s.runs|;
      (Lists(Cutout(s.runs, m, end), if m <= s.at then m else s.at, 0, l.oob + s.runs[m..end]), true)
  }

  /** split_allocation */
  function SplitTwice(l: Lists, n: nat): (s: SplitResult)
    requires l.at <= |l.runs|
    ensures s.at <= |s.runs| && s.middle <= |s.runs|
  {
    var first := Split(l.runs, l.at, l.partial);
    Split(first.runs, first.at, n)
  }

  lemma CutNoWrap(runs: seq<Run>, k: nat, len: nat)
    requires k < |runs| && len <= runs[k].len && NoWrap(runs)
    ensures NoWrap(Cut(runs, k, len))
  {
    var front := runs[k := Front(runs[k], len)];
    hide Insert;
    forall i | 0 <= i <= |runs|
      ensures Cut(runs, k, len)[i].block + Cut(runs, k, len)[i].len <= 0x1_0000_0000
    {
      InsertAt(front, k + 1, Back(runs[k], len), i);
    }
  }

  lemma SplitNoWrap(runs: seq<Run>, at: nat, len: nat)
    requires at <= |runs| && NoWrap(runs)
    ensures NoWrap(Split(runs, at, len).runs)
  {
    var (k, rest) := Walk(runs, at, len);
    if k < |runs| && rest > 0 {
      CutNoWrap(runs, k, rest);
    }
    hide NoWrap, Cut;
  }

  // ----- reading -----

  function BlocksOf(r: Run): (s: seq<nat>)
    ensures |s| == r.len
  {
    seq(r.len, i requires 0 <= i => r.block + i)
  }

  /** The block numbers of an allocation in order, from region k on. */
  function Flatten(runs: seq<Run>, k: nat): seq<nat>
    requires k <= |runs|
    decreases |runs| - k
  {
    if k == |runs| then [] else BlocksOf(runs[k]) + Flatten(runs, k + 1)
  }

  const NO_BLOCK: u32 := 0xFFFF_FFFF

  /** The search of get_block. */
  function Lookup(runs: seq<Run>, k: nat, block: nat): nat
    requires k <= |runs|
    decreases |runs| - k
  {
    if k == |runs| then NO_BLOCK
    else if block < runs[k].len then runs[k].block + block
    else Lookup(runs, k + 1, block - runs[k].len)
  }

  /** Searching region by region is indexing the flattened list. */
  lemma {:induction false} LookupIsIndex(runs: seq<Run>, k: nat, block: nat)
    requires k <= |runs|
    ensures Lookup(runs, k, block) == if block < |Flatten(runs, k)| then Flatten(runs, k)[block] else NO_BLOCK
    decreases |runs| - k
  {
    if k < |runs| && block >= runs[k].len {
      LookupIsIndex(runs, k + 1, block - runs[k].len);
    }
  }

  /** advance_list_ptr: the new offset and whether enough blocks were left; the region it reaches is not stored. */
  function Advance(runs: seq<Run>, k: nat, partial: nat, blocks: nat): (r: (nat, bool))
    requires k <= |runs| && (k < |runs| ==> partial <= runs[k].len)
    decreases |runs| - k
  {
    if k == |runs| || blocks == 0 then (partial, blocks == 0)
    else if runs[k].len > partial + blocks then (partial + blocks, true)
    else Advance(runs, k + 1, 0, blocks - (runs[k].len - partial))
  }

  lemma TotalStep(runs: seq<Run>, k: nat)
    requires k < |runs|
    ensures Total(runs[k..]) == runs[k].len + Total(runs[k + 1..])
  {
    assert runs[k..][1..] == runs[k + 1..];
  }

  lemma TotalDone(runs: seq<Run>)
    ensures Total(runs[|runs|..]) == 0
  {}

  lemma LookupStep(runs: seq<Run>, k: nat, left: nat)
    requires k < |runs|
    ensures Lookup(runs, k, left)
         == if left < runs[k].len then runs[k].block + left else Lookup(runs, k + 1, left - runs[k].len)
  {}

  lemma LookupEnd(runs: seq<Run>)
    ensures forall left: nat :: Lookup(runs, |runs|, left) == 0xFFFF_FFFF
  {}

  lemma AdvanceStep(runs: seq<Run>, k: nat, partial: nat, blocks: nat)
    requires k < |runs| && partial <= runs[k].len && blocks > 0
    ensures Advance(runs, k, partial, blocks)
         == if runs[k].len > partial + blocks then (partial + blocks, true)
            else Advance(runs, k + 1, 0, blocks - (runs[k].len - partial))
  {}

  lemma AdvanceEnd(runs: seq<Run>, k: nat, partial: nat, blocks: nat)
    requires k <= |runs| && (k < |runs| ==> partial <= runs[k].len) && (k == |runs| || blocks == 0)
    ensures Advance(runs, k, partial, blocks) == (partial, blocks == 0)
  {}

  // ----- removing -----

  function Cutout<T>(all: seq<T>, m: nat, j: nat): (r: seq<T>)
    requires m <= j <= |all|
    ensures |r| == |all| - (j - m)
  {
    all[..m] + all[j..]
  }

  lemma CutoutMore<T>(all: seq<T>, m: nat, j: nat)
    requires m <= j < |all|
    ensures Without(Cutout(all, m, j), m) == Cutout(all, m, j + 1) && Cutout(all, m, j)[m] == all[j]
    ensures all[m..j] + [all[j]] == all[m..j + 1]
  {}

  lemma CutoutOne<T>(all: seq<T>, k: nat)
    requires k < |all|
    ensures Cutout(all, k, k + 1) == Without(all, k)
  {}

  lemma ShortWithout<T>(all: seq<T>, j: int, k: nat)
    requires -1 <= j < k < |all|
    ensures Without(Cutout(all, j + 1, k), j + 1) == Cutout(all, j + 1, k + 1)
  {}

  lemma CutoutNothing<T>(all: seq<T>, m: nat)
    requires m <= |all|
    ensures Cutout(all, m, m) == all && all[m..m] == []
  {}

  /** The chain with the region behind node j taken to be region k. */
  lemma ShortAt(all: seq<Region>, j: int, k: nat, i: nat)
    requires -1 <= j < k < |all| && i < |all| - (k - (j + 1))
    ensures Cutout(all, j + 1, k)[i] == all[if i <= j then i else k + (i - (j + 1))]
    ensures NodeAt(Cutout(all, j + 1, k), i + 1) == if i < j then all[i + 1] else NodeAt(all, k + (i - j))
  {}

  lemma ShortDistinct(all: seq<Region>, j: int, k: nat)
    requires -1 <= j < k < |all| && Distinct(all)
    ensures Distinct(Cutout(all, j + 1, k))
  {
    hide Cutout, NodeAt;
    var short := Cutout(all, j + 1, k);
    forall a, b | 0 <= a < b < |short|
      ensures short[a] != short[b]
    {
      ShortAt(all, j, k, a);
      ShortAt(all, j, k, b);
    }
  }

  lemma ShortRuns(all: seq<Region>, j: int, k: nat)
    requires -1 <= j < k < |all|
    ensures RunsOf(Cutout(all, j + 1, k)) == Cutout(RunsOf(all), j + 1, k)
  {
    var short := Cutout(all, j + 1, k);
    hide RunsOf;
    forall i | 0 <= i < |short|
      ensures RunsOf(short)[i] == Cutout(RunsOf(all), j + 1, k)[i]
    {
      RunAt(short, i);
      RunAt(all, if i <= j then i else k + (i - (j + 1)));
    }
  }

  class RegionList {
    var first: Region?
    var last: Region?
    var iter: Region?
    var partialIter: u32
    ghost var nodes: seq<Region>

    constructor ()
      ensures first == null && last == null && iter == null && partialIter == 0 && nodes == []
    {
      first, last, iter, partialIter, nodes := null, null, null, 0, [];
    }

    /** The chain from first is the list of nodes. */
    ghost predicate Chained()
      reads this`first, this`nodes, nodes`next
    {
      Linked(nodes) && first == NodeAt(nodes, 0)
    }

    /** region_list_remove: the k-th region leaves the list, and so do the regions between it and the one its prev pointer
        names. With a right pointer there are none; behind a cut the pointer is stale. */
    method Remove(reg: Region, ghost k: nat, ghost j: int, ghost front: Region?)
      requires Chained() && k < |nodes| && nodes[k] == reg && -1 <= j < k && (j < 0 ==> k == 0)
      requires reg.prev == NodeAt(nodes, j) && front == NodeAt(nodes, k - 1)
      modifies this`first, this`last, this`nodes, nodes`next, nodes`prev
      ensures Chained() && nodes == Cutout(old(nodes), j + 1, k + 1)
      ensures RunsOf(nodes) == Cutout(old(RunsOf(nodes)), j + 1, k + 1)
      ensures j + 1 < |nodes| ==> nodes[j + 1].prev == NodeAt(nodes, j)
      ensures j + 1 < k && front != null ==> front.next == reg
    {
      hide *;
      ghost var all := nodes;
      ghost var short := Cutout(all, j + 1, k);
      ChainedDistinct();
      ShortDistinct(all, j, k);
      NeighboursRemoved(short, j + 1);
      HeadKept(all, j, k);
      ShortWithout(all, j, k);
      ShortWithout(RunsOf(all), j, k);
      DropEnds(reg, k);
      nodes := Without(short, j + 1);
      Unlink(reg, all, k, j);
      FrontIs(all, k, front);
      assert j + 1 < k ==> all[k - 1].next == NodeAt(all, k - 1 + 1);
      ShortSkips(all, j, k);
      ShortRuns(all, j, k);
      RemovedLinked(short, j + 1);
      NowChained();
    }

    lemma FrontIs(all: seq<Region>, k: nat, front: Region?)
      requires k < |all| && front == NodeAt(all, k - 1)
      ensures k > 0 ==> front == all[k - 1]
    {}

    lemma ChainedDistinct()
      requires Chained()
      ensures Distinct(nodes) && forall i :: 0 <= i < |nodes| ==> nodes[i].next == NodeAt(nodes, i + 1)
    {}

    lemma HeadKept(all: seq<Region>, j: int, k: nat)
      requires -1 <= j < k < |all| && (j < 0 ==> k == 0)
      ensures Cutout(all, j + 1, k)[j + 1] == all[k] == NodeAt(all, k) && j + 1 < |Cutout(all, j + 1, k)|
      ensures NodeAt(Without(Cutout(all, j + 1, k), j + 1), 0) == NodeAt(Without(all, k), 0)
    {}

    lemma NowChained()
      requires Linked(nodes) && first == NodeAt(nodes, 0)
      ensures Chained()
    {}

    method DropEnds(reg: Region, ghost k: nat)
      requires Chained() && k < |nodes| && nodes[k] == reg
      modifies this`first, this`last
      ensures Linked(nodes) && first == NodeAt(Without(nodes, k), 0)
    {
      HeadRemoved(nodes, k);
      hide Linked, Without, NodeAt;
      if first == reg {
        first := reg.next;
      }
      if last == reg {
        last := reg.prev;
      }
    }

    /** The pointer part of region_list_remove. */
    static method Unlink(reg: Region, ghost all: seq<Region>, ghost k: nat, ghost j: int)
      requires Linked(all) && k < |all| && all[k] == reg && -1 <= j < k && reg.prev == NodeAt(all, j)
      modifies all`next, all`prev
      ensures j >= 0 ==> all[j].next == NodeAt(all, k + 1)
      ensures forall i :: 0 <= i < |all| && i != k && i != j ==> all[i].next == NodeAt(all, i + 1)
      ensures k + 1 < |all| ==> all[k + 1].prev == NodeAt(all, j)
    {
      UnlinkReady(reg, all, k, j);
      hide *;
      if reg.prev != null {
        reg.prev.next := reg.next;
      }
      if reg.next != null {
        reg.next.prev := reg.prev;
      }
      reg.next := null;
      reg.prev := null;
    }

    static lemma UnlinkReady(reg: Region, all: seq<Region>, k: nat, j: int)
      requires Linked(all) && k < |all| && all[k] == reg && -1 <= j < k && reg.prev == NodeAt(all, j)
      ensures forall i :: 0 <= i < |all| ==> all[i].next == NodeAt(all, i + 1)
      ensures forall i :: 0 <= i < |all| && i != k ==> all[i] != reg
      ensures if j >= 0 then reg.prev == all[j] && (forall i :: 0 <= i < |all| && i != j ==> all[i] != all[j])
              else reg.prev == null
      ensures reg.next == NodeAt(all, k + 1) && (if k + 1 < |all| then reg.next == all[k + 1] else reg.next == null)
    {}

    static lemma ShortSkips(all: seq<Region>, j: int, k: nat)
      requires -1 <= j < k < |all| && Distinct(Cutout(all, j + 1, k))
      requires j >= 0 ==> all[j].next == NodeAt(all, k + 1)
      requires forall i :: 0 <= i < |all| && i != k && i != j ==> all[i].next == NodeAt(all, i + 1)
      requires k + 1 < |all| ==> all[k + 1].prev == NodeAt(all, j)
      ensures var short := Cutout(all, j + 1, k);
              SkipLinked(short, j + 1) && (j + 2 < |short| ==> short[j + 2].prev == NodeAt(short, j))
    {
      var short := Cutout(all, j + 1, k);
      ShortAt(all, j, k, j + 1);
      if j >= 0 {
        ShortAt(all, j, k, j);
      }
      if j + 2 < |short| {
        ShortAt(all, j, k, j + 2);
      }
      assert j >= 0 ==> short[j] == all[j];
      assert j >= 0 ==> short[j].next == NodeAt(short, j + 2);
      hide Distinct, Cutout;
      forall i | 0 <= i < |short| && i != j + 1 && i != j
        ensures short[i].next == NodeAt(short, i + 1)
      {
        ShortAt(all, j, k, i);
      }
    }

    /** region_list_append, on a list whose last pointer is right. */
    method Append(reg: Region)
      requires Chained() && last == NodeAt(nodes, |nodes| - 1) && reg !in nodes
      modifies this, nodes`next, reg`next, reg`prev
      ensures Chained() && last == reg == NodeAt(nodes, |nodes| - 1) && nodes == old(nodes) + [reg]
      ensures RunsOf(nodes) == old(RunsOf(nodes)) + [old(reg.View())]
      ensures iter == (if old(first) == null then reg else old(iter))
      ensures partialIter == if old(first) == null then 0 else old(partialIter)
    {
      if first == null {
        AppendFirst(reg);
      } else {
        AppendBehind(reg);
      }
    }

    method AppendFirst(reg: Region)
      requires Chained() && first == null
      modifies this, reg`next, reg`prev
      ensures Chained() && first == last == iter == reg == NodeAt(nodes, |nodes| - 1) && partialIter == 0 && nodes == old(nodes) + [reg]
      ensures RunsOf(nodes) == old(RunsOf(nodes)) + [old(reg.View())]
    {
      assert nodes == [];
      RunsAppended(nodes, reg);
      hide Linked, RunsOf, Distinct;
      first := reg;
      last := reg;
      iter := reg;
      partialIter := 0;
      nodes := nodes + [reg];
      reg.prev := null;
      reg.next := null;
      OneLinked(reg);
    }

    method AppendBehind(reg: Region)
      requires Chained() && first != null && last == NodeAt(nodes, |nodes| - 1) && reg !in nodes
      modifies this`last, this`nodes, nodes`next, reg`next, reg`prev
      ensures Chained() && last == reg == NodeAt(nodes, |nodes| - 1) && nodes == old(nodes) + [reg]
      ensures RunsOf(nodes) == old(RunsOf(nodes)) + [old(reg.View())]
    {
      ghost var all := nodes;
      var tail := last;
      RunsAppended(all, reg);
      ChainReady(all, reg);
      last := reg;
      nodes := all + [reg];
      hide Linked, RunsOf, Distinct;
      tail.next := reg;
      reg.prev := tail;
      reg.next := null;
      AppendedLinked(all, reg);
    }

    /** The read position is at region at. */
    ghost predicate ReadsAt(at: nat)
      reads this`iter, this`nodes
    {
      at <= |nodes| && iter == NodeAt(nodes, at)
    }

    /** The walk of do_split_allocation. */
    method WalkFrom(ghost at: nat, len: u32) returns (reg: Region?, rest: u32, ghost k: nat)
      requires Chained() && ReadsAt(at)
      ensures (k, rest) == Walk(RunsOf(nodes), at, len) && reg == NodeAt(nodes, k)
    {
      reg, rest, k := iter, len, at;
      hide RunsOf, Distinct;
      while reg != null && rest >= reg.len
        invariant k <= |nodes| && reg == NodeAt(nodes, k) && Walk(RunsOf(nodes), at, len) == Walk(RunsOf(nodes), k, rest)
        decreases |nodes| - k
      {
        RunAt(nodes, k);
        rest := rest - reg.len;
        reg := reg.next;
        k := k + 1;
      }
      if reg != null {
        RunAt(nodes, k);
      }
    }

    /** The second half of do_split_allocation: region k keeps len blocks, a new region behind it gets the rest. */
    method CutAt(reg: Region, len: u32, ghost k: nat) returns (piece: Region)
      requires Chained() && k < |nodes| && reg == nodes[k] && 0 < len < RunsOf(nodes)[k].len && NoWrap(RunsOf(nodes))
      modifies this`nodes, reg`next, reg`len
      ensures fresh(piece) && Chained() && nodes == Insert(old(nodes), k + 1, piece) && piece.prev == reg
      ensures RunsOf(nodes) == Cut(old(RunsOf(nodes)), k, len)
    {
      ghost var all, runs := nodes, RunsOf(nodes);
      StillChained();
      RunsAll(all);
      hide *;
      piece := CutNode(all, reg, len, k);
      nodes := Insert(all, k + 1, piece);
      InsertedLinked(all, k, piece);
      RunsInserted(all, k + 1, piece);
      CutIs(runs, k, len);
      FirstInserted(all, k + 1, piece);
      NowChained();
    }

    lemma StillChained()
      requires Chained() && nodes != []
      ensures Linked(nodes) && first == nodes[0]
    {}

    /** The pointer part of the cut. */
    static method CutNode(ghost all: seq<Region>, reg: Region, len: u32, ghost k: nat) returns (piece: Region)
      requires Linked(all) && k < |all| && reg == all[k] && 0 < len < RunsOf(all)[k].len && NoWrap(RunsOf(all))
      modifies reg`next, reg`len
      ensures fresh(piece) && Distinct(all) && Through(all, k, piece) && piece.prev == reg
      ensures RunsOf(all) == old(RunsOf(all))[k := Front(old(RunsOf(all))[k], len)]
      ensures piece.View() == Back(old(RunsOf(all))[k], len)
    {
      ghost var runs := RunsOf(all);
      RunsAll(all);
      hide RunsOf;
      piece := new Region(reg.block + len, reg.len - len, reg.bg);
      piece.next := reg.next;
      piece.prev := reg;
      reg.next := piece;
      reg.len := len;
      RunsAll(all);
    }

    /** The cut of do_split_allocation: the read position moves to the new region. */
    method CutHere(reg: Region, len: u32, ghost at: nat, ghost k: nat)
      requires Chained() && at <= k < |nodes| && reg == nodes[k] && 0 < len < RunsOf(nodes)[k].len
      requires NoWrap(RunsOf(nodes)) && PrevOk(nodes, at)
      modifies this`iter, this`nodes, reg`next, reg`len
      ensures Chained() && RunsOf(nodes) == Cut(old(RunsOf(nodes)), k, len) && ReadsAt(k + 1)
      ensures PrevOk(nodes, at) && PrevOk(nodes, k + 1) && NodeAt(nodes, at) == old(NodeAt(nodes, at))
      ensures Grown(old(nodes), nodes, k + 1)
      ensures forall i :: 0 <= i < |nodes| ==> fresh(nodes[i]) || nodes[i] in old(nodes)
    {
      ghost var all := nodes;
      hide Linked, RunsOf, NoWrap, Insert, Distinct, PrevOk, NodeAt, Grown;
      var piece := CutAt(reg, len, k);
      PrevKept(all, k, piece, at);
      GrownBy(all, k + 1, piece);
      OnlyOneNew(all, k + 1, piece);
      iter := piece;
    }

    /** get_region: the first block and the length of the region at the read position. */
    method GetRegion(ghost at: nat) returns (block: u32, len: u32)
      requires Chained() && ReadsAt(at) && at < |nodes| && partialIter == 0
      ensures |RunsOf(nodes)| == |nodes| && block == RunsOf(nodes)[at].block && len == RunsOf(nodes)[at].len
    {
      hide *;
      ReadFrom(at);
      IterIs(at);
      Here(iter, at);
      block, len := iter.block, iter.len - partialIter;
    }

    lemma IterIs(at: nat)
      requires iter == NodeAt(nodes, at) && at < |nodes|
      ensures iter != null
    {}

    /** get_next_region */
    method GetNextRegion(ghost at: nat)
      requires Chained() && ReadsAt(at) && at < |nodes|
      modifies this`iter, this`partialIter
      ensures ReadsAt(at + 1) && partialIter == 0
    {
      iter := iter.next;
      partialIter := 0;
    }

    /** rewind_alloc */
    method Rewind()
      requires Chained()
      modifies this`iter, this`partialIter
      ensures ReadsAt(0) && partialIter == 0
    {
      iter := first;
      partialIter := 0;
    }

    /** block_allocation_num_regions */
    method NumRegions() returns (count: nat)
      requires Chained()
      ensures count == |RunsOf(nodes)|
    {
      hide RunsOf, Distinct;
      count := 0;
      var reg := first;
      while reg != null
        invariant count <= |nodes| && reg == NodeAt(nodes, count)
        decreases |nodes| - count
      {
        reg := reg.next;
        count := count + 1;
      }
    }

    /** block_allocation_len */
    method Length() returns (len: nat)
      requires Chained()
      ensures len == Total(RunsOf(nodes))
    {
      hide *;
      ghost var k, runs := 0, RunsOf(nodes);
      var reg := first;
      len := 0;
      FirstOfChain(runs);
      while reg != null
        invariant k <= |nodes| == |runs| && reg == NodeAt(nodes, k) && Total(runs) == len + Total(runs[k..])
        decreases |nodes| - k
      {
        Here(reg, k);
        TotalStep(runs, k);
        len := len + reg.len;
        reg := reg.next;
        k := k + 1;
      }
      PastEnd(k);
      TotalDone(runs);
    }

    lemma FirstOfChain(runs: seq<Run>)
      requires Chained() && runs == RunsOf(nodes)
      ensures first == NodeAt(nodes, 0) && |runs| == |nodes| && runs[0..] == runs
    {}

    /** get_block and get_oob_block */
    method GetBlock(block: u32, ghost at: nat) returns (r: u32)
      requires Chained() && ReadsAt(at) && NoWrap(RunsOf(nodes))
      ensures at <= |RunsOf(nodes)| && r == Lookup(RunsOf(nodes), at, (block + partialIter) % 0x1_0000_0000)
    {
      hide *;
      ReadFrom(at);
      var reg, left: int := iter, (block + partialIter) % 0x1_0000_0000;
      ghost var k, runs, want := at, RunsOf(nodes), left;
      while reg != null
        invariant k <= |nodes| && reg == NodeAt(nodes, k) && 0 <= left && Lookup(runs, at, want) == Lookup(runs, k, left)
        decreases |nodes| - k
      {
        Here(reg, k);
        LookupStep(runs, k, left);
        if left < reg.len {
          return reg.block + left;
        }
        left := left - reg.len;
        reg := reg.next;
        k := k + 1;
      }
      PastEnd(k);
      LookupEnd(runs);
      r := 0xFFFF_FFFF;
    }

    lemma ReadFrom(at: nat)
      requires ReadsAt(at)
      ensures iter == NodeAt(nodes, at) && at <= |nodes| == |RunsOf(nodes)|
    {}

    lemma Here(reg: Region, k: nat)
      requires Chained() && reg == NodeAt(nodes, k)
      ensures k < |nodes| == |RunsOf(nodes)| && reg.next == NodeAt(nodes, k + 1)
      ensures RunsOf(nodes)[k].block == reg.block && RunsOf(nodes)[k].len == reg.len
      ensures NoWrap(RunsOf(nodes)) ==> reg.block + reg.len <= 0x1_0000_0000
    {
      RunAt(nodes, k);
      hide RunsOf;
    }

    lemma PastEnd(k: nat)
      requires NodeAt(nodes, k) == null && k <= |nodes|
      ensures k == |nodes|
    {}

    /** advance_list_ptr with the offset inside the region at the read position. */
    method AdvanceListPtr(count: nat, ghost at: nat) returns (ok: bool)
      requires Chained() && ReadsAt(at) && (at < |nodes| ==> partialIter <= RunsOf(nodes)[at].len)
      modifies this`partialIter
      ensures at <= |RunsOf(nodes)| && (partialIter as nat, ok) == Advance(RunsOf(nodes), at, old(partialIter), count)
    {
      hide *;
      ReadFrom(at);
      var reg, blocks: int := iter, count;
      ghost var k, runs, start := at, RunsOf(nodes), partialIter;
      while reg != null && blocks > 0
        invariant k <= |nodes| && reg == NodeAt(nodes, k) && (k < |nodes| ==> partialIter <= runs[k].len) && 0 <= blocks
        invariant Advance(runs, at, start, count) == Advance(runs, k, partialIter, blocks)
        decreases |nodes| - k
      {
        Here(reg, k);
        AdvanceStep(runs, k, partialIter, blocks);
        if reg.len > partialIter + blocks {
          partialIter := partialIter + blocks;
          return true;
        }
        blocks := blocks - (reg.len - partialIter);
        partialIter := 0;
        reg := reg.next;
        k := k + 1;
      }
      if reg == null {
        PastEnd(k);
      }
      AdvanceEnd(runs, k, partialIter, blocks);
      ok := blocks == 0;
    }

    /** do_split_allocation: makes a region begin len blocks behind the read position. */
    method DoSplit(len: u32, ghost at: nat, ghost s: SplitResult) returns (middle: Region?)
      requires Positioned(at) && NoWrap(RunsOf(nodes)) && at <= |RunsOf(nodes)| && s == Split(RunsOf(nodes), at, len)
      modifies this`iter, this`nodes, nodes`next, nodes`len
      ensures Positioned(s.at) && RunsOf(nodes) == s.runs && middle == NodeAt(nodes, s.middle)
      ensures PrevOk(nodes, at) && PrevOk(nodes, s.at)
      ensures if s.at == at then nodes == old(nodes) else Grown(old(nodes), nodes, s.at)
      ensures forall i :: 0 <= i < |nodes| ==> fresh(nodes[i]) || nodes[i] in old(nodes)
    {
      hide *;
      var reg, rest;
      ghost var k;
      SplitReady(at, len);
      reg, rest, k := WalkFrom(at, len);
      if rest == 0 {
        middle := reg;
      } else if reg == null {
        middle := null;
      } else {
        middle := iter;
        CutHere(reg, rest, at, k);
        PositionedAt(k + 1);
      }
    }

    lemma SplitReady(at: nat, len: nat)
      requires Positioned(at) && NoWrap(RunsOf(nodes))
      ensures Chained() && ReadsAt(at) && PrevOk(nodes, at) && at <= |nodes| == |RunsOf(nodes)|
      ensures iter == NodeAt(nodes, at) && NodeAt(nodes, -1) == null && NodeAt(nodes, |nodes|) == null
      ensures forall k :: 0 <= k < |nodes| ==> NodeAt(nodes, k) == nodes[k]
      ensures var (k, rest) := Walk(RunsOf(nodes), at, len);
              && at <= k <= |nodes| && (k < |nodes| ==> rest < RunsOf(nodes)[k].len)
              && (rest == 0 ==> Split(RunsOf(nodes), at, len) == SplitResult(RunsOf(nodes), at, k))
              && (rest > 0 && k == |nodes| ==> Split(RunsOf(nodes), at, len) == SplitResult(RunsOf(nodes), at, -1))
              && (rest > 0 && k < |nodes| ==>
                    Split(RunsOf(nodes), at, len) == SplitResult(Cut(RunsOf(nodes), k, rest), k + 1, at))
    {
      WalkInside(RunsOf(nodes), at, len);
      SplitIs(RunsOf(nodes), at, len);
      hide Linked, RunsOf, Walk, Split;
    }

    lemma PositionedAt(at: nat)
      requires Chained() && ReadsAt(at) && PrevOk(nodes, at)
      ensures Positioned(at)
    {}

    /** A proper chain read from region at, whose prev pointer is right. */
    ghost predicate Positioned(at: nat)
      reads this, nodes`next, nodes`prev
    {
      Chained() && ReadsAt(at) && PrevOk(nodes, at)
    }
  }

  lemma SplitIs(runs: seq<Run>, at: nat, len: nat)
    requires at <= |runs|
    ensures var (k, rest) := Walk(runs, at, len);
            && (rest == 0 ==> Split(runs, at, len) == SplitResult(runs, at, k))
            && (rest > 0 && k == |runs| ==> Split(runs, at, len) == SplitResult(runs, at, -1))
            && (rest > 0 && k < |runs| ==> Split(runs, at, len) == SplitResult(Cut(runs, k, rest), k + 1, at))
  {
    hide Walk;
  }

  /** The prev pointer of region i is right. */
  ghost predicate PrevOk(nodes: seq<Region>, i: nat)
    reads nodes`prev
  {
    i < |nodes| ==> nodes[i].prev == NodeAt(nodes, i - 1)
  }

  lemma PrevKept(all: seq<Region>, k: nat, piece: Region, at: nat)
    requires at <= k < |all| && PrevOk(all, at) && piece.prev == all[k]
    ensures var longer := Insert(all, k + 1, piece);
            PrevOk(longer, at) && PrevOk(longer, k + 1)
            && NodeAt(longer, k + 1) == piece && NodeAt(longer, at) == NodeAt(all, at)
  {}

  /** The list has one more region, at place c. */
  ghost predicate Grown(all: seq<Region>, longer: seq<Region>, c: nat) {
    c <= |all| && |longer| == |all| + 1 && longer == Insert(all, c, longer[c])
  }

  lemma GrownBy(all: seq<Region>, c: nat, piece: Region)
    requires c <= |all|
    ensures Grown(all, Insert(all, c, piece), c)
  {}

  /** Behind a cut the prev pointer of the next region still names the front piece; all others are right. */
  lemma PrevBehindCut(all: seq<Region>, nodes: seq<Region>, cut: bool, c: nat, m: nat)
    requires BackLinked(all) && c < m < |nodes| && (if cut then c > 0 && Grown(all, nodes, c) else nodes == all)
    ensures nodes[m].prev == NodeAt(nodes, if cut && m == c + 1 then m - 2 else m - 1)
  {
    if cut {
      InsertAt(all, c, nodes[c], m);
      InsertAt(all, c, nodes[c], m - 1);
      InsertAt(all, c, nodes[c], c - 1);
    }
  }

  lemma OnlyOneNew(all: seq<Region>, k: nat, piece: Region)
    requires k <= |all|
    ensures forall i :: 0 <= i <= |all| ==> Insert(all, k, piece)[i] == piece || Insert(all, k, piece)[i] in all
  {}

  lemma FirstInserted(all: seq<Region>, k: nat, x: Region)
    requires 0 < k <= |all|
    ensures NodeAt(Insert(all, k, x), 0) == all[0]
  {}

  // ----- moving a stretch of one list to another -----

  ghost predicate NodesApart(a: seq<Region>, b: seq<Region>) {
    forall i, j :: 0 <= i < |a| && 0 <= j < |b| ==> a[i] != b[j]
  }

  lemma ApartAfterMove(a: seq<Region>, b: seq<Region>, m: nat, j: int)
    requires -1 <= j < m < |a| && Distinct(a) && NodesApart(a, b)
    ensures var rest := Cutout(a, j + 1, m + 1);
            NodesApart(rest, b) && a[m] !in b && forall i :: 0 <= i < |rest| ==> rest[i] != a[m]
  {}

  /** struct block_allocation */
  class BlockAllocation {
    const list: RegionList
    const oobList: RegionList

    /** create_allocation */
    constructor ()
      ensures fresh(list) && fresh(oobList) && list != oobList
      ensures list.first == null && list.last == null && list.iter == null && list.partialIter == 0 && list.nodes == []
      ensures oobList.first == null && oobList.last == null && oobList.iter == null && oobList.partialIter == 0
      ensures oobList.nodes == []
    {
      list := new RegionList();
      oobList := new RegionList();
    }

    /** All the regions of the allocation. */
    ghost function Nodes(): set<Region>
      reads list, oobList
    {
      (set x | x in list.nodes) + (set x | x in oobList.nodes)
    }

    /** Two proper chains that share no region; the oob list knows its end. */
    ghost predicate Valid()
      reads this, list, oobList, list.nodes`next, oobList.nodes`next
    {
      && list != oobList
      && list.Chained() && oobList.Chained()
      && oobList.last == NodeAt(oobList.nodes, |oobList.nodes| - 1)
      && NodesApart(list.nodes, oobList.nodes)
    }

    /** The lists hold these values, and the read position is where they say. */
    ghost predicate Shows(l: Lists)
      reads this, list, oobList, list.nodes`next, oobList.nodes`next
      reads list.nodes`block, list.nodes`len, list.nodes`bg, oobList.nodes`block, oobList.nodes`len, oobList.nodes`bg
    {
      && Valid() && OobStarts() && list.ReadsAt(l.at) && list.partialIter == l.partial
      && RunsOf(list.nodes) == l.runs && RunsOf(oobList.nodes) == l.oob
    }

    /** do_split_allocation leaves the oob list alone. */
    method SplitList(len: u32, ghost l: Lists, ghost s: SplitResult) returns (middle: Region?)
      requires Shows(l) && PrevOk(list.nodes, l.at) && NoWrap(l.runs)
      requires l.at <= |l.runs| && s == Split(l.runs, l.at, len)
      modifies list`iter, list`nodes, list.nodes`next, list.nodes`len
      ensures Shows(l.(runs := s.runs, at := s.at)) && NoWrap(s.runs) && middle == NodeAt(list.nodes, s.middle)
      ensures |list.nodes| == |s.runs|
      ensures PrevOk(list.nodes, l.at) && PrevOk(list.nodes, s.at)
      ensures if s.at == l.at then list.nodes == old(list.nodes) else Grown(old(list.nodes), list.nodes, s.at)
      ensures forall i :: 0 <= i < |list.nodes| ==> fresh(list.nodes[i]) || list.nodes[i] in old(list.nodes)
    {
      hide *;
      SplitBefore(l, len);
      middle := list.DoSplit(len, l.at, s);
      StillApart(list.nodes, oobList.nodes);
      SplitAfter(l.(runs := s.runs, at := s.at));
    }

    lemma StillApart(a: seq<Region>, b: seq<Region>)
      requires forall i, j :: 0 <= i < |a| && 0 <= j < |b| ==> a[i] != b[j]
      ensures NodesApart(a, b)
    {}

    lemma SplitBefore(l: Lists, len: nat)
      requires Shows(l) && PrevOk(list.nodes, l.at) && NoWrap(l.runs)
      ensures l.at <= |l.runs| && NoWrap(Split(l.runs, l.at, len).runs) && list.Positioned(l.at)
      ensures list != oobList && oobList.Chained() && oobList.last == NodeAt(oobList.nodes, |oobList.nodes| - 1)
      ensures OobStarts()
      ensures forall i, j :: 0 <= i < |list.nodes| && 0 <= j < |oobList.nodes| ==> list.nodes[i] != oobList.nodes[j]
      ensures RunsOf(list.nodes) == l.runs && RunsOf(oobList.nodes) == l.oob && list.partialIter == l.partial
    {
      SplitNoWrap(l.runs, l.at, len);
      hide Linked, RunsOf, NoWrap, Split;
    }

    lemma SplitAfter(l: Lists)
      requires list != oobList && oobList.Chained() && oobList.last == NodeAt(oobList.nodes, |oobList.nodes| - 1)
      requires NodesApart(list.nodes, oobList.nodes) && list.Positioned(l.at) && OobStarts()
      requires RunsOf(list.nodes) == l.runs && RunsOf(oobList.nodes) == l.oob && list.partialIter == l.partial
      ensures Shows(l) && |list.nodes| == |l.runs|
    {
      hide Linked, RunsOf, NodesApart;
    }

    /** The oob list, once it holds something, is read from its start. */
    ghost predicate OobStarts()
      reads this, oobList
    {
      oobList.nodes != [] ==> oobList.iter == oobList.nodes[0] && oobList.partialIter == 0
    }

    /** Valid, with one region in neither list. */
    ghost predicate Loose(reg: Region)
      reads this, list, oobList, list.nodes`next, oobList.nodes`next
    {
      Valid() && (forall i :: 0 <= i < |list.nodes| ==> list.nodes[i] != reg) && reg !in oobList.nodes
    }

    /** region_list_remove, with the oob list beside it. */
    method TakeOut(reg: Region, ghost m: nat, ghost j: int, ghost front: Region?)
      requires Valid() && m < |list.nodes| && list.nodes[m] == reg && -1 <= j < m && (j < 0 ==> m == 0)
      requires reg.prev == NodeAt(list.nodes, j) && front == NodeAt(list.nodes, m - 1)
      modifies list`first, list`last, list`nodes, list.nodes`next, list.nodes`prev
      ensures Loose(reg) && PrevOk(list.nodes, j + 1)
      ensures list.nodes == Cutout(old(list.nodes), j + 1, m + 1) && oobList.nodes == old(oobList.nodes)
      ensures RunsOf(list.nodes) == Cutout(old(RunsOf(list.nodes)), j + 1, m + 1)
      ensures j + 1 < m && front != null ==> front.next == reg
    {
      TakeReady(m, j);
      hide *;
      list.Remove(reg, m, j, front);
      TakeDone(reg, j);
    }

    lemma TakeReady(m: nat, j: int)
      requires Valid() && m < |list.nodes| && -1 <= j < m
      ensures list != oobList && list.Chained() && oobList.Chained()
      ensures oobList.last == NodeAt(oobList.nodes, |oobList.nodes| - 1)
      ensures forall a, b :: 0 <= a < |list.nodes| && 0 <= b < |oobList.nodes| ==> list.nodes[a] != oobList.nodes[b]
      ensures var rest := Cutout(list.nodes, j + 1, m + 1);
              NodesApart(rest, oobList.nodes) && list.nodes[m] !in oobList.nodes
              && (forall i :: 0 <= i < |rest| ==> rest[i] != list.nodes[m])
    {
      assert Distinct(list.nodes);
      ApartAfterMove(list.nodes, oobList.nodes, m, j);
    }

    lemma TakeDone(reg: Region, j: int)
      requires list != oobList && list.Chained() && oobList.Chained() && -1 <= j
      requires oobList.last == NodeAt(oobList.nodes, |oobList.nodes| - 1)
      requires NodesApart(list.nodes, oobList.nodes) && reg !in oobList.nodes
      requires forall i :: 0 <= i < |list.nodes| ==> list.nodes[i] != reg
      requires j + 1 < |list.nodes| ==> list.nodes[j + 1].prev == NodeAt(list.nodes, j)
      ensures Loose(reg) && PrevOk(list.nodes, j + 1)
    {
      hide RegionList.Chained, NodesApart;
    }

    method PutIn(reg: Region, ghost m: nat)
      requires Loose(reg) && PrevOk(list.nodes, m) && OobStarts()
      modifies oobList, oobList.nodes`next, reg`next, reg`prev
      ensures Valid() && PrevOk(list.nodes, m) && list.nodes == old(list.nodes)
      ensures oobList.nodes == old(oobList.nodes) + [reg] && OobStarts()
      ensures RunsOf(oobList.nodes) == old(RunsOf(oobList.nodes)) + [old(reg.View())]
    {
      assert oobList.first == null <==> oobList.nodes == [];
      hide RunsOf, Distinct, NodeAt, RegionList.Chained;
      oobList.Append(reg);
    }

    /** One turn of the moving loop of reserve_oob_blocks. */
    method MoveOne(reg: Region, ghost m: nat)
      requires Valid() && m < |list.nodes| && list.nodes[m] == reg && PrevOk(list.nodes, m) && OobStarts()
      modifies list`first, list`last, list`nodes, list.nodes`next, list.nodes`prev, oobList, oobList.nodes`next
      ensures Valid() && PrevOk(list.nodes, m) && OobStarts()
      ensures list.nodes == Without(old(list.nodes), m) && oobList.nodes == old(oobList.nodes) + [reg]
      ensures RunsOf(list.nodes) == Without(old(RunsOf(list.nodes)), m)
      ensures RunsOf(oobList.nodes) == old(RunsOf(oobList.nodes)) + [old(RunsOf(list.nodes))[m]]
    {
      hide *;
      RunAt(list.nodes, m);
      CutoutOne(list.nodes, m);
      CutoutOne(RunsOf(list.nodes), m);
      PrevIs(list.nodes, m);
      TakeOut(reg, m, m - 1, NodeAt(list.nodes, m - 1));
      PutIn(reg, m);
    }

    lemma PrevIs(nodes: seq<Region>, m: nat)
      requires PrevOk(nodes, m) && m < |nodes|
      ensures nodes[m].prev == NodeAt(nodes, m - 1)
    {}

    /** The regions from m up to j have moved; before and after are the lists in front of the first move. */
    ghost predicate Moved(nodes: seq<Region>, runs: seq<Run>, oob: seq<Region>, oobRuns: seq<Run>, m: nat, j: nat)
      reads this, list, oobList, list.nodes`next, oobList.nodes`next, list.nodes`prev
      reads list.nodes`block, list.nodes`len, list.nodes`bg, oobList.nodes`block, oobList.nodes`len, oobList.nodes`bg
    {
      && m <= j <= |nodes| == |runs|
      && Valid() && PrevOk(list.nodes, m) && OobStarts()
      && list.nodes == Cutout(nodes, m, j) && RunsOf(list.nodes) == Cutout(runs, m, j)
      && oobList.nodes == oob + nodes[m..j] && RunsOf(oobList.nodes) == oobRuns + runs[m..j]
    }

    /** One turn of the loop, and the next region. */
    method MoveStep(reg: Region, ghost nodes: seq<Region>, ghost runs: seq<Run>, ghost oob: seq<Region>,
                    ghost oobRuns: seq<Run>, ghost m: nat, ghost j: nat) returns (next: Region?)
      requires Moved(nodes, runs, oob, oobRuns, m, j) && reg == NodeAt(nodes, j)
      modifies list`first, list`last, list`nodes, list.nodes`next, list.nodes`prev, oobList, oobList.nodes`next
      ensures Moved(nodes, runs, oob, oobRuns, m, j + 1) && next == NodeAt(nodes, j + 1)
    {
      hide *;
      MoveReady(reg, nodes, runs, oob, oobRuns, m, j);
      next := reg.next;
      MoveOne(reg, m);
      MovedMore(nodes, runs, oob, oobRuns, m, j);
    }

    lemma MoveReady(reg: Region, nodes: seq<Region>, runs: seq<Run>, oob: seq<Region>, oobRuns: seq<Run>, m: nat, j: nat)
      requires Moved(nodes, runs, oob, oobRuns, m, j) && reg == NodeAt(nodes, j)
      ensures m <= j < |nodes| == |runs| && reg == nodes[j]
      ensures Valid() && PrevOk(list.nodes, m) && m < |list.nodes| && list.nodes[m] == reg && OobStarts()
      ensures reg.next == NodeAt(nodes, j + 1)
      ensures list.nodes == Cutout(nodes, m, j) && RunsOf(list.nodes) == Cutout(runs, m, j)
      ensures oobList.nodes == oob + nodes[m..j] && RunsOf(oobList.nodes) == oobRuns + runs[m..j]
      ensures |RunsOf(list.nodes)| == |list.nodes|
    {
      CutoutNext(nodes, m, j);
      assert list.nodes[m].next == NodeAt(list.nodes, m + 1);
    }

    lemma MovedMore(nodes: seq<Region>, runs: seq<Run>, oob: seq<Region>, oobRuns: seq<Run>, m: nat, j: nat)
      requires m <= j < |nodes| == |runs| && Valid() && PrevOk(list.nodes, m) && OobStarts()
      requires list.nodes == Without(Cutout(nodes, m, j), m) && RunsOf(list.nodes) == Without(Cutout(runs, m, j), m)
      requires oobList.nodes == oob + nodes[m..j] + [nodes[j]]
      requires RunsOf(oobList.nodes) == oobRuns + runs[m..j] + [Cutout(runs, m, j)[m]]
      ensures Moved(nodes, runs, oob, oobRuns, m, j + 1)
    {
      CutoutMore(nodes, m, j);
      CutoutMore(runs, m, j);
      hide RunsOf, Cutout, Without, Valid, PrevOk;
      AssocRegions(oob, nodes[m..j], [nodes[j]]);
      AssocRegions(oobRuns, runs[m..j], [runs[j]]);
    }

    /** The moving loop of reserve_oob_blocks, from region m on: it stops at the read position, or at the end. */
    method MoveStretch(first: Region?, ghost m: nat, ghost end: nat)
      requires Valid() && PrevOk(list.nodes, m) && first == NodeAt(list.nodes, m) && OobStarts() && m <= end <= |list.nodes|
      requires forall j :: m <= j <= end ==> (NodeAt(list.nodes, j) == null || NodeAt(list.nodes, j) == list.iter <==> j == end)
      modifies list`first, list`last, list`nodes, list.nodes`next, list.nodes`prev, oobList, oobList.nodes`next
      ensures Moved(old(list.nodes), old(RunsOf(list.nodes)), old(oobList.nodes), old(RunsOf(oobList.nodes)), m, end)
    {
      hide *;
      ghost var nodes, runs := list.nodes, RunsOf(list.nodes);
      ghost var oob, oobRuns := oobList.nodes, RunsOf(oobList.nodes);
      ghost var j := m;
      NothingMoved(nodes, runs, oob, oobRuns, m);
      var reg := first;
      while reg != null && reg != list.iter
        invariant m <= j <= end && reg == NodeAt(nodes, j) && Moved(nodes, runs, oob, oobRuns, m, j)
        decreases end - j
      {
        MovedWithin(nodes, runs, oob, oobRuns, m, j);
        reg := MoveStep(reg, nodes, runs, oob, oobRuns, m, j);
        j := j + 1;
      }
    }

    lemma NothingMoved(nodes: seq<Region>, runs: seq<Run>, oob: seq<Region>, oobRuns: seq<Run>, m: nat)
      requires Valid() && PrevOk(list.nodes, m) && m <= |nodes| && OobStarts()
      requires nodes == list.nodes && runs == RunsOf(nodes) && oob == oobList.nodes && oobRuns == RunsOf(oob)
      ensures Moved(nodes, runs, oob, oobRuns, m, m) && list != oobList
    {
      CutoutNothing(nodes, m);
      CutoutNothing(runs, m);
      hide Cutout, RunsOf, Valid, PrevOk;
    }

    lemma MovedWithin(nodes: seq<Region>, runs: seq<Run>, oob: seq<Region>, oobRuns: seq<Run>, m: nat, j: nat)
      requires Moved(nodes, runs, oob, oobRuns, m, j)
      ensures forall i :: 0 <= i < |list.nodes| ==> list.nodes[i] in nodes
      ensures forall i :: 0 <= i < |oobList.nodes| ==> oobList.nodes[i] in oob || oobList.nodes[i] in nodes
    {
      hide RunsOf, Valid, PrevOk;
      forall i | 0 <= i < |oobList.nodes|
        ensures oobList.nodes[i] in oob || oobList.nodes[i] in nodes
      {
        assert oobList.nodes[i] == if i < |oob| then oob[i] else nodes[m + (i - |oob|)];
      }
    }

    /** The loop meets its end exactly at region end. */
    lemma StopsAt(nodes: seq<Region>, m: nat, at: nat, end: nat)
      requires Valid() && nodes == list.nodes && list.ReadsAt(at) && m <= |nodes|
      requires end == if m <= at then at else |nodes|
      ensures m <= end
      ensures forall j :: m <= j <= end ==> (NodeAt(nodes, j) == null || NodeAt(nodes, j) == list.iter <==> j == end)
    {
      assert Distinct(nodes);
      hide Linked;
    }

    /** The lists do_split_allocation can work on. */
    ghost predicate Splittable(l: Lists)
      reads this, list, oobList, list.nodes`next, oobList.nodes`next, list.nodes`prev
      reads list.nodes`block, list.nodes`len, list.nodes`bg, oobList.nodes`block, oobList.nodes`len, oobList.nodes`bg
    {
      Shows(l) && PrevOk(list.nodes, l.at) && NoWrap(l.runs) && l.at <= |l.runs|
    }

    /** split_allocation: a split at the read position and one n blocks on; returns the region the second one
        found. */
    method SplitAllocation(n: u32, ghost l: Lists) returns (middle: Region?)
      requires Splittable(l)
      modifies list`iter, list`nodes, list`partialIter, list.nodes`next, list.nodes`len
      ensures var s := SplitTwice(l, n);
              && Shows(l.(runs := s.runs, at := s.at, partial := 0)) && middle == NodeAt(list.nodes, s.middle)
              && (!Spans(l, n) && 0 <= s.middle ==> PrevOk(list.nodes, s.middle))
              && (Spans(l, n) && old(BackLinked(list.nodes)) && !Stale(l, n) ==> PrevOk(list.nodes, s.middle))
              && (old(BackLinked(list.nodes)) && Stale(l, n) ==> PrevTwoBack(list.nodes, s.middle))
      ensures forall i :: 0 <= i < |list.nodes| ==> fresh(list.nodes[i]) || list.nodes[i] in old(list.nodes)
    {
      hide *;
      SplittableIs(l, n);
      ghost var s1 := Split(l.runs, l.at, l.partial);
      ghost var s2 := Split(s1.runs, s1.at, n);
      ghost var all := list.nodes;
      var ignored := SplitList(list.partialIter, l, s1);
      middle := SplitList(n, l.(runs := s1.runs, at := s1.at), s2);
      MiddleOk(l, n, all, s1, s2);
      ClearPartial(l.(runs := s2.runs, at := s2.at));
    }

    /** The lists a reservation can start from: when nothing is cut, every prev pointer has to be right. */
    ghost predicate Ready(l: Lists, n: nat)
      reads this, list, oobList, list.nodes`next, oobList.nodes`next, list.nodes`prev
      reads list.nodes`block, list.nodes`len, list.nodes`bg, oobList.nodes`block, oobList.nodes`len, oobList.nodes`bg
    {
      Splittable(l) && (Spans(l, n) ==> BackLinked(list.nodes) && !Stale(l, n))
    }

    lemma SplittableIs(l: Lists, n: nat)
      requires Splittable(l)
      ensures Shows(l) && PrevOk(list.nodes, l.at) && NoWrap(l.runs) && l.at <= |l.runs| && list.partialIter == l.partial
      ensures list != oobList
      ensures var s1 := Split(l.runs, l.at, l.partial);
              l.at <= s1.at <= |s1.runs| && SplitTwice(l, n) == Split(s1.runs, s1.at, n)
    {
      hide Split, NoWrap, RunsOf, Linked, PrevOk;
    }

    lemma MiddleOk(l: Lists, n: nat, all: seq<Region>, s1: SplitResult, s2: SplitResult)
      requires l.at <= |l.runs| && s1 == Split(l.runs, l.at, l.partial) && s2 == Split(s1.runs, s1.at, n) == SplitTwice(l, n)
      requires PrevOk(list.nodes, s1.at) && PrevOk(list.nodes, s2.at) && |list.nodes| == |s2.runs|
      requires s2.at == s1.at == l.at ==> list.nodes == all
      requires s2.at == s1.at > l.at ==> Grown(all, list.nodes, s1.at)
      ensures !Spans(l, n) && 0 <= s2.middle ==> PrevOk(list.nodes, s2.middle)
      ensures Spans(l, n) && BackLinked(all) && !Stale(l, n) ==> PrevOk(list.nodes, s2.middle)
      ensures BackLinked(all) && Stale(l, n) ==> PrevTwoBack(list.nodes, s2.middle)
    {
      SplitMiddle(s1, n);
      hide Split, Grown, SplitTwice, BackLinked;
      if Spans(l, n) && BackLinked(all) {
        PrevBehindCut(all, list.nodes, s1.at > l.at, s1.at, s2.middle);
      }
    }

    method ClearPartial(ghost l: Lists)
      requires Shows(l)
      modifies list`partialIter
      ensures Shows(l.(partial := 0))
    {
      hide Linked, Distinct, RunsOf, NodesApart, NodeAt;
      list.partialIter := 0;
    }

    /** reserve_oob_blocks: n blocks leave the list at the read position and join the oob list; -1 is ok == false. */
    method ReserveOobBlocks(n: u32, ghost l: Lists) returns (ok: bool)
      requires Ready(l, n)
      modifies list`first, list`last, list`iter, list`nodes, list`partialIter, list.nodes, oobList, oobList.nodes`next
      ensures l.at <= |l.runs| && ok == Reserve(l, n).1 && Shows(Reserve(l, n).0)
      ensures ok && !Spans(l, n) ==> PrevOk(list.nodes, Reserve(l, n).0.at)
      ensures forall i :: 0 <= i < |list.nodes| ==> fresh(list.nodes[i]) || list.nodes[i] in old(list.nodes)
      ensures forall i :: 0 <= i < |oobList.nodes| ==>
                fresh(oobList.nodes[i]) || oobList.nodes[i] in old(list.nodes) || oobList.nodes[i] in old(oobList.nodes)
    {
      hide *;
      ReadyIs(l, n);
      ghost var s := SplitTwice(l, n);
      var middle := SplitAllocation(n, l);
      ReserveIs(l, n, middle);
      if middle == null {
        return false;
      }
      ghost var end := if s.middle <= s.at then s.at else |s.runs|;
      ghost var nodes, oob, oobRuns := list.nodes, oobList.nodes, RunsOf(oobList.nodes);
      StopsAt(nodes, s.middle, s.at, end);
      MoveStretch(middle, s.middle, end);
      MovedShows(nodes, s.runs, oob, oobRuns, s.middle, end, s.at, l);
      MovedWithin(nodes, s.runs, oob, oobRuns, s.middle, end);
      ok := true;
    }

    lemma ReadyIs(l: Lists, n: nat)
      requires Ready(l, n)
      ensures Splittable(l) && l.at <= |l.runs| && (Spans(l, n) ==> BackLinked(list.nodes) && !Stale(l, n))
    {}

    /** What a reservation over a stale prev pointer leaves: everything behind the region read moves to the oob list, and that
        region, the n blocks to be reserved, is in neither list. The read position is still there, and leads into the oob
        list. */
    ghost predicate Dropped(runs: seq<Run>, at: nat, oob: seq<Run>)
      requires at < |runs|
      reads this, list, oobList, list.nodes`next, oobList.nodes`next, list.iter
      reads list.nodes`block, list.nodes`len, list.nodes`bg, oobList.nodes`block, oobList.nodes`len, oobList.nodes`bg
    {
      && Valid() && OobStarts() && list.partialIter == 0
      && RunsOf(list.nodes) == runs[..at] && RunsOf(oobList.nodes) == oob + runs[at + 1..]
      && list.iter != null && list.iter.View() == runs[at] && list.iter !in list.nodes && list.iter !in oobList.nodes
      && |oob| < |oobList.nodes| && list.iter.next == oobList.nodes[|oob|]
    }

    /** The first turn of the loop over a stale prev pointer: the region in front of reg leaves the chain with it. */
    method MoveStale(reg: Region, ghost m: nat, ghost front: Region)
      requires Valid() && 2 <= m < |list.nodes| && list.nodes[m] == reg && PrevTwoBack(list.nodes, m) && OobStarts()
      requires front == list.nodes[m - 1]
      modifies list`first, list`last, list`nodes, list.nodes`next, list.nodes`prev, oobList, oobList.nodes`next
      ensures Valid() && PrevOk(list.nodes, m - 1) && OobStarts() && front.next == reg
      ensures front !in list.nodes && front !in oobList.nodes
      ensures list.nodes == Cutout(old(list.nodes), m - 1, m + 1) && oobList.nodes == old(oobList.nodes) + [reg]
      ensures RunsOf(list.nodes) == Cutout(old(RunsOf(list.nodes)), m - 1, m + 1)
      ensures RunsOf(oobList.nodes) == old(RunsOf(oobList.nodes)) + [old(RunsOf(list.nodes))[m]]
    {
      hide *;
      RunAt(list.nodes, m);
      StaleReady(reg, m, front);
      TakeOut(reg, m, m - 2, front);
      PutIn(reg, m - 1);
    }

    lemma StaleReady(reg: Region, m: nat, front: Region)
      requires Valid() && 2 <= m < |list.nodes| && list.nodes[m] == reg && PrevTwoBack(list.nodes, m)
      requires front == list.nodes[m - 1]
      ensures reg.prev == NodeAt(list.nodes, m - 2) && front == NodeAt(list.nodes, m - 1) && front != reg
      ensures front !in Cutout(list.nodes, m - 1, m + 1) && front !in oobList.nodes + [reg]
    {}

    /** reserve_oob_blocks in that case: the reservation succeeds, and its blocks are lost. */
    method ReserveStale(n: u32, ghost l: Lists) returns (ok: bool)
      requires Splittable(l) && BackLinked(list.nodes) && l.at <= |l.runs| && Stale(l, n)
      modifies list`first, list`last, list`iter, list`nodes, list`partialIter, list.nodes, oobList, oobList.nodes`next
      ensures var s := SplitTwice(l, n); ok && s.at < |s.runs| && s.runs[s.at].len == n && Dropped(s.runs, s.at, l.oob)
    {
      hide *;
      StaleSplit(l, n);
      ghost var s := SplitTwice(l, n);
      var middle := SplitAllocation(n, l);
      StaleMiddle(l, n, s, middle);
      ghost var nodes, oob, front, m := list.nodes, oobList.nodes, list.iter, s.at + 1;
      var next := middle.next;
      MoveStale(middle, m, front);
      ghost var rest := list.nodes;
      RestBehind(nodes, m, rest);
      assert forall i :: 0 <= i < |oobList.nodes| ==> oobList.nodes[i] == middle || oobList.nodes[i] in oob;
      StopsAtEnd(m - 1);
      MoveStretch(next, m - 1, |rest|);
      DroppedIs(l, s, m, rest, oob, front, middle);
      ok := true;
    }

    lemma StaleSplit(l: Lists, n: nat)
      requires l.at <= |l.runs| && Stale(l, n)
      ensures var s := SplitTwice(l, n);
              && 1 <= s.at < |s.runs| && s.at + 1 < |s.runs| && s.middle == s.at + 1 && s.runs[s.at].len == n
    {
      var s1 := Split(l.runs, l.at, l.partial);
      SplitMiddle(s1, n);
      SplitIs(s1.runs, s1.at, n);
      WalkOne(s1.runs, s1.at, n);
      hide Split, Walk;
    }

    lemma WalkOne(runs: seq<Run>, k: nat, len: nat)
      requires k < |runs| && Walk(runs, k, len) == (k + 1, 0)
      ensures runs[k].len == len
    {
      assert Walk(runs, k + 1, len - runs[k].len).1 == 0;
    }

    lemma StaleMiddle(l: Lists, n: nat, s: SplitResult, middle: Region?)
      requires 1 <= s.at && s.at + 1 < |s.runs| && s.middle == s.at + 1
      requires Shows(l.(runs := s.runs, at := s.at, partial := 0)) && middle == NodeAt(list.nodes, s.middle)
      ensures Valid() && OobStarts() && list.partialIter == 0 && RunsOf(list.nodes) == s.runs && RunsOf(oobList.nodes) == l.oob
      ensures |list.nodes| == |s.runs| && |oobList.nodes| == |l.oob|
      ensures middle != null && middle == list.nodes[s.at + 1] && list.iter != null && list.iter == list.nodes[s.at]
      ensures list.iter.View() == s.runs[s.at] && middle.next == NodeAt(list.nodes, s.at + 2)
    {
      RunAt(list.nodes, s.at);
      hide RunsOf, NodesApart;
    }

    lemma RestBehind(nodes: seq<Region>, m: nat, rest: seq<Region>)
      requires 1 <= m < |nodes| && rest == Cutout(nodes, m - 1, m + 1)
      ensures NodeAt(nodes, m + 1) == NodeAt(rest, m - 1) && m - 1 <= |rest|
      ensures forall i :: 0 <= i < |rest| ==> rest[i] in nodes
    {}

    lemma StopsAtEnd(m: nat)
      requires list.iter != null && list.iter !in list.nodes
      ensures forall j :: m <= j <= |list.nodes| ==>
                (NodeAt(list.nodes, j) == null || NodeAt(list.nodes, j) == list.iter <==> j == |list.nodes|)
    {}

    lemma DroppedIs(l: Lists, s: SplitResult, m: nat, rest: seq<Region>, oob: seq<Region>, front: Region?, middle: Region)
      requires 1 <= s.at && m == s.at + 1 < |s.runs| && list.iter == front != null && list.partialIter == 0
      requires |oob| == |l.oob| && m - 1 <= |rest|
      requires Moved(rest, Cutout(s.runs, m - 1, m + 1), oob + [middle], l.oob + [s.runs[m]], m - 1, |rest|)
      requires front.View() == s.runs[s.at] && front.next == middle && front !in rest && front !in oob + [middle]
      ensures Dropped(s.runs, s.at, l.oob)
    {
      var runs := Cutout(s.runs, m - 1, m + 1);
      assert runs[m - 1..|rest|] == s.runs[m + 1..] && Cutout(runs, m - 1, |rest|) == s.runs[..s.at];
      assert s.runs[s.at + 1..] == [s.runs[m]] + s.runs[m + 1..];
      assert l.oob + [s.runs[m]] + s.runs[m + 1..] == l.oob + s.runs[s.at + 1..];
      hide RunsOf, Valid;
    }

    /** advance_blocks */
    method AdvanceBlocks(count: nat, ghost l: Lists) returns (ok: bool)
      requires Shows(l) && (l.at < |l.runs| ==> l.partial <= l.runs[l.at].len)
      modifies list`partialIter
      ensures l.at <= |l.runs| && ok == Advance(l.runs, l.at, l.partial, count).1
      ensures Shows(l.(partial := Advance(l.runs, l.at, l.partial, count).0))
    {
      assert |list.nodes| == |l.runs|;
      hide Linked, RunsOf, Distinct, NodesApart, Advance, NodeAt;
      ok := list.AdvanceListPtr(count, l.at);
    }

    /** reserve_oob_blocks, framed by the allocation's regions. */
    method ReserveNodes(n: u32, ghost l: Lists) returns (ok: bool)
      requires Ready(l, n)
      modifies list, oobList, Nodes()
      ensures l.at <= |l.runs| && ok == Reserve(l, n).1 && Shows(Reserve(l, n).0)
      ensures ok && !Spans(l, n) ==> PrevOk(list.nodes, Reserve(l, n).0.at)
      ensures fresh(Nodes() - old(Nodes()))
    {
      hide Ready, Shows, Reserve, Spans, PrevOk;
      ok := ReserveOobBlocks(n, l);
    }

    lemma ReserveIs(l: Lists, n: nat, middle: Region?)
      requires l.at <= |l.runs|
      requires var s := SplitTwice(l, n);
               Shows(l.(runs := s.runs, at := s.at, partial := 0)) && middle == NodeAt(list.nodes, s.middle)
      ensures var s := SplitTwice(l, n);
              && s.at <= |s.runs| == |list.nodes| && Valid() && OobStarts() && list.ReadsAt(s.at) && RunsOf(list.nodes) == s.runs
              && list.iter == NodeAt(list.nodes, s.at) && list.partialIter == 0 && list != oobList
              && RunsOf(oobList.nodes) == l.oob
              && (middle == null ==> Reserve(l, n) == (Lists(s.runs, s.at, 0, l.oob), false)
                                     && Shows(Reserve(l, n).0))
              && (middle != null ==> 0 <= s.middle < |s.runs|)
              && (Spans(l, n) <==> s.at < s.middle < |s.runs|)
      ensures var s := SplitTwice(l, n);
              var end := if s.middle <= s.at then s.at else |s.runs|;
              middle != null ==>
                Reserve(l, n) == (Lists(Cutout(s.runs, s.middle, end), if s.middle <= s.at then s.middle else s.at, 0,
                                        l.oob + s.runs[s.middle..end]), true)
    {
      hide SplitTwice, Cutout, RunsOf, RegionList.Chained, NodesApart;
    }

    lemma MovedShows(nodes: seq<Region>, runs: seq<Run>, oob: seq<Region>, oobRuns: seq<Run>, m: nat, end: nat, at: nat,
                     l: Lists)
      requires Moved(nodes, runs, oob, oobRuns, m, end) && at <= |nodes| && list.iter == NodeAt(nodes, at)
      requires end == if m <= at then at else |nodes|
      requires list.partialIter == 0
      ensures Shows(Lists(Cutout(runs, m, end), if m <= at then m else at, 0, oobRuns + runs[m..end]))
      ensures PrevOk(list.nodes, m)
    {
      hide RunsOf, Valid;
    }
  }

  /** The second split of a reservation falls between two regions behind the read position. */
  predicate Spans(l: Lists, n: nat)
    requires l.at <= |l.runs|
  {
    var s := SplitTwice(l, n);
    s.at < s.middle < |s.runs|
  }

  /** Such a second split lies right behind a cut of the first one, and the region it finds has a stale prev pointer. */
  predicate Stale(l: Lists, n: nat)
    requires l.at <= |l.runs|
  {
    Spans(l, n) && Split(l.runs, l.at, l.partial).at > l.at && SplitTwice(l, n).middle == SplitTwice(l, n).at + 1
  }

  /** The prev pointer of region m names the region two in front of it. */
  ghost predicate PrevTwoBack(nodes: seq<Region>, m: int)
    reads nodes`prev
  {
    2 <= m < |nodes| && nodes[m].prev == nodes[m - 2]
  }

  lemma SplitMiddle(s1: SplitResult, n: nat)
    requires s1.at <= |s1.runs|
    ensures var s2 := Split(s1.runs, s1.at, n);
            s2.middle == s1.at || s2.middle == s2.at || s2.middle < 0 || (s2.at < s2.middle && s2.at == s1.at)
  {
    WalkInside(s1.runs, s1.at, n);
    hide Walk;
  }

  lemma AssocRegions<T>(a: seq<T>, b: seq<T>, c: seq<T>)
    ensures a + b + c == a + (b + c)
  {}

  lemma CutoutNext(nodes: seq<Region>, m: nat, j: nat)
    requires m <= j < |nodes|
    ensures Cutout(nodes, m, j)[m] == nodes[j] && NodeAt(Cutout(nodes, m, j), m + 1) == NodeAt(nodes, j + 1)
  {}
}
