/** What reserve_oob_blocks is for, told from the blocks of the allocation in order, and when the code meets it. */
module Reservations {
  import opened Words
  import opened AllocatorSpec
  import opened Regions
  import B = BoundaryCases

  /** The blocks of a list of regions, in order. */
  function Blocks(runs: seq<Run>): seq<nat> { Flatten(runs, 0) }

  lemma BlocksCons(r: Run, rest: seq<Run>)
    ensures Blocks([r] + rest) == BlocksOf(r) + Blocks(rest)
  {
    B.FlattenCons(r, rest);
    hide Flatten;
  }

  lemma NoBlocks()
    ensures Blocks([]) == []
  {}

  lemma {:induction false} BlocksAppend(a: seq<Run>, b: seq<Run>)
    ensures Blocks(a + b) == Blocks(a) + Blocks(b)
    decreases |a|
  {
    hide *;
    if a == [] {
      NoBlocks();
      assert a + b == b;
    } else {
      assert a == [a[0]] + a[1..] && a + b == [a[0]] + (a[1..] + b);
      BlocksAppend(a[1..], b);
      BlocksCons(a[0], a[1..]);
      BlocksCons(a[0], a[1..] + b);
    }
  }

  lemma {:induction false} BlocksOne(r: Run)
    ensures Blocks([r]) == BlocksOf(r)
  {
    hide *;
    assert [r] + [] == [r];
    BlocksCons(r, []);
    NoBlocks();
  }

  /** The number of blocks in front of region k. */
  function Upto(runs: seq<Run>, k: nat): nat
    requires k <= |runs|
  {
    |Blocks(runs[..k])|
  }

  lemma {:induction false} UptoSplits(runs: seq<Run>, k: nat)
    requires k <= |runs|
    ensures Blocks(runs) == Blocks(runs[..k]) + Blocks(runs[k..])
    ensures Upto(runs, k) <= |Blocks(runs)| && Blocks(runs[..k]) == Blocks(runs)[..Upto(runs, k)]
    ensures Blocks(runs[k..]) == Blocks(runs)[Upto(runs, k)..]
  {
    assert runs == runs[..k] + runs[k..];
    hide Blocks;
    BlocksAppend(runs[..k], runs[k..]);
  }

  lemma {:induction false} UptoStep(runs: seq<Run>, k: nat)
    requires k < |runs|
    ensures Upto(runs, k + 1) == Upto(runs, k) + runs[k].len
  {
    assert runs[..k + 1] == runs[..k] + [runs[k]];
    hide Blocks;
    BlocksAppend(runs[..k], [runs[k]]);
    BlocksOne(runs[k]);
  }

  lemma {:induction false} UptoEnds(runs: seq<Run>)
    ensures Upto(runs, 0) == 0 && Upto(runs, |runs|) == |Blocks(runs)|
  {
    assert runs[..|runs|] == runs && runs[..0] == [];
  }

  lemma {:induction false} UptoGrows(runs: seq<Run>, i: nat, k: nat)
    requires i <= k <= |runs|
    ensures Upto(runs, i) <= Upto(runs, k)
    decreases k - i
  {
    hide *;
    if i < k {
      UptoStep(runs, i);
      UptoGrows(runs, i + 1, k);
    }
  }

  // ----- the parts of a split -----

  /** A walk stops in the region that holds the block it looks for. */
  lemma {:induction false} WalkStops(runs: seq<Run>, k: nat, len: nat)
    requires k <= |runs|
    ensures var (j, rest) := Walk(runs, k, len);
            && k <= j <= |runs| && Upto(runs, j) + rest == Upto(runs, k) + len
            && (j < |runs| ==> rest < runs[j].len && Upto(runs, k) + len < |Blocks(runs)|)
            && (j == |runs| ==> Upto(runs, k) + len >= |Blocks(runs)|)
    decreases |runs| - k
  {
    hide Blocks, Upto;
    UptoEnds(runs);
    if k < |runs| {
      UptoStep(runs, k);
      if len < runs[k].len {
        UptoGrows(runs, k + 1, |runs|);
      } else {
        WalkStops(runs, k + 1, len - runs[k].len);
      }
    }
  }

  lemma CutParts(runs: seq<Run>, k: nat, len: nat)
    requires k < |runs| && len <= runs[k].len
    ensures |Cut(runs, k, len)| == |runs| + 1 && runs == runs[..k] + ([runs[k]] + runs[k + 1..])
    ensures Cut(runs, k, len)
         == (runs[..k] + [Front(runs[k], len)]) + ([Back(runs[k], len)] + runs[k + 1..])
    ensures Cut(runs, k, len)[..k + 1] == runs[..k] + [Front(runs[k], len)]
  {}

  lemma BothHalves(r: Run, len: nat)
    requires len <= r.len
    ensures BlocksOf(Front(r, len)) + BlocksOf(Back(r, len)) == BlocksOf(r)
  {}

  /** Cutting a region changes no block. */
  lemma {:induction false} CutKeeps(runs: seq<Run>, k: nat, len: nat)
    requires k < |runs| && len <= runs[k].len
    ensures Blocks(Cut(runs, k, len)) == Blocks(runs)
    ensures |Cut(runs, k, len)| == |runs| + 1 && Upto(Cut(runs, k, len), k + 1) == Upto(runs, k) + len
    ensures forall i :: 0 <= i <= k ==> Cut(runs, k, len)[..i] == runs[..i]
  {
    CutParts(runs, k, len);
    hide Cut, Blocks, BlocksOf;
    var r, front, back, rest := runs[k], Front(runs[k], len), Back(runs[k], len), runs[k + 1..];
    BlocksAppend(runs[..k], [r] + rest);
    BlocksAppend([r], rest);
    BlocksOne(r);
    BlocksAppend(runs[..k] + [front], [back] + rest);
    BlocksAppend(runs[..k], [front]);
    BlocksAppend([back], rest);
    BlocksOne(front);
    BlocksOne(back);
    BothHalves(r, len);
    Join(Blocks(runs[..k]), BlocksOf(front), BlocksOf(back), Blocks(rest));
    FrontLength(r, len);
    forall i | 0 <= i <= k
      ensures Cut(runs, k, len)[..i] == runs[..i]
    {
      assert Cut(runs, k, len)[..k + 1][..i] == runs[..i];
    }
  }

  lemma FrontLength(r: Run, len: nat)
    ensures |BlocksOf(Front(r, len))| == len
  {}

  lemma Join(a: seq<nat>, b: seq<nat>, c: seq<nat>, d: seq<nat>)
    ensures (a + b) + (c + d) == a + ((b + c) + d)
  {}

  /** A split changes no block; where it cuts, the read position is the cut, and otherwise it stays. */
  lemma {:induction false} SplitKeeps(runs: seq<Run>, at: nat, len: nat)
    requires at <= |runs|
    ensures var s, to := Split(runs, at, len), Upto(runs, at) + len;
            && Blocks(s.runs) == Blocks(runs) && at <= |s.runs| && s.runs[..at] == runs[..at]
            && (to >= |Blocks(runs)| ==> (s.middle < 0 || s.middle == |s.runs|) && s.at == at)
            && (to < |Blocks(runs)| && s.at > at ==> s.middle == at && Upto(s.runs, s.at) == to)
            && (to < |Blocks(runs)| && s.at == at ==>
                  s.runs == runs && at <= s.middle < |runs| && Upto(runs, s.middle) == to)
  {
    WalkStops(runs, at, len);
    hide Blocks, Upto, Walk, Cut;
    var (k, rest) := Walk(runs, at, len);
    if k < |runs| && rest > 0 {
      CutKeeps(runs, k, rest);
    }
  }

  // ----- the reservation -----

  /** The read position is inside a region, or behind the last. */
  predicate Reads(l: Lists) {
    && l.at <= |l.runs| && (l.at < |l.runs| ==> l.partial < l.runs[l.at].len)
    && (l.at == |l.runs| ==> l.partial == 0)
  }

  /** The number of blocks in front of the read position. */
  function Position(l: Lists): nat
    requires l.at <= |l.runs|
  {
    Upto(l.runs, l.at) + l.partial
  }

  /** The split at the read position makes it the front of a region. */
  lemma {:induction false} FirstSplit(l: Lists)
    requires Reads(l)
    ensures var s := Split(l.runs, l.at, l.partial);
            && Blocks(s.runs) == Blocks(l.runs) && s.at <= |s.runs| && Upto(s.runs, s.at) == Position(l)
            && Position(l) <= |Blocks(l.runs)|
  {
    UptoSplits(l.runs, l.at);
    if l.at < |l.runs| {
      UptoStep(l.runs, l.at);
      UptoGrows(l.runs, l.at + 1, |l.runs|);
      UptoEnds(l.runs);
      SplitKeeps(l.runs, l.at, l.partial);
      SplitHere(l);
    }
    hide Blocks;
  }

  lemma SplitHere(l: Lists)
    requires Reads(l) && l.at < |l.runs|
    ensures Split(l.runs, l.at, l.partial).at == l.at ==> l.partial == 0
  {}

  lemma {:induction false} TakenOut(runs: seq<Run>, m: nat, end: nat)
    requires m <= end <= |runs|
    ensures Upto(runs, m) <= Upto(runs, end) <= |Blocks(runs)|
    ensures Blocks(runs[m..end]) == Blocks(runs)[Upto(runs, m)..Upto(runs, end)]
    ensures Blocks(Cutout(runs, m, end)) == Blocks(runs)[..Upto(runs, m)] + Blocks(runs)[Upto(runs, end)..]
    ensures Upto(Cutout(runs, m, end), m) == Upto(runs, m)
  {
    UptoGrows(runs, m, end);
    UptoSplits(runs, m);
    UptoSplits(runs, end);
    UptoSplits(runs[..end], m);
    assert runs[..end][..m] == runs[..m] && runs[..end][m..] == runs[m..end];
    assert Cutout(runs, m, end)[..m] == runs[..m];
    hide Blocks;
    BlocksAppend(runs[..m], runs[end..]);
  }

  /** What a reservation of n blocks is to do: those at the read position leave the list and join the oob list, in order,
      and the read position stays. */
  ghost predicate Intended(l: Lists, n: nat, r: Lists)
    requires l.at <= |l.runs|
  {
    var all, p := Blocks(l.runs), Position(l);
    && p + n <= |all| && Blocks(r.oob) == Blocks(l.oob) + all[p..p + n] && Blocks(r.runs) == all[..p] + all[p + n..]
    && r.at <= |r.runs| && Position(r) == p
  }

  /** The n blocks end where one region ends and another begins. */
  ghost predicate EndsRegion(l: Lists, n: nat)
    requires l.at <= |l.runs|
  {
    Boundary(l.runs, Position(l) + n)
  }

  ghost predicate Boundary(runs: seq<Run>, at: nat) {
    exists k :: 0 < k < |runs| && Upto(runs, k) == at
  }

  /** What the two splits leave for a request of n blocks. */
  lemma {:induction false} Splits(l: Lists, n: nat)
    requires Reads(l)
    ensures var s, all, p := SplitTwice(l, n), Blocks(l.runs), Position(l);
            && Blocks(s.runs) == all && p <= |all|
            && (p + n >= |all| <==> s.middle < 0 || s.middle == |s.runs|)
            && (p + n < |all| ==> 0 <= s.middle < |s.runs|)
            && (p + n < |all| && !Spans(l, n) ==>
                  s.middle <= s.at <= |s.runs| && Upto(s.runs, s.middle) == p && Upto(s.runs, s.at) == p + n)
            && (p + n < |all| && Spans(l, n) ==>
                  s.at < s.middle && Upto(s.runs, s.middle) == p + n && Upto(s.runs, s.at) == p)
  {
    FirstSplit(l);
    var s1 := Split(l.runs, l.at, l.partial);
    SplitKeeps(s1.runs, s1.at, n);
    UptoIs(SplitTwice(l, n).runs, s1.runs, s1.at);
    hide Split, Blocks, Upto, Walk;
  }

  lemma ReserveIsCases(l: Lists, n: nat)
    requires l.at <= |l.runs|
    ensures var s, (r, ok) := SplitTwice(l, n), Reserve(l, n);
            && (ok <==> 0 <= s.middle < |s.runs|)
            && (!ok ==> r == Lists(s.runs, s.at, 0, l.oob))
            && (ok && s.middle <= s.at ==>
                  r == Lists(Cutout(s.runs, s.middle, s.at), s.middle, 0, l.oob + s.runs[s.middle..s.at]))
            && (ok && s.middle > s.at ==>
                  r == Lists(Cutout(s.runs, s.middle, |s.runs|), s.at, 0, l.oob + s.runs[s.middle..|s.runs|]))
  {
    hide Split, Cutout;
  }

  /** The reservation succeeds exactly when it leaves something, and where its blocks end inside a region it does what it is
      to do. Where they end with a region, everything behind them is taken instead. */
  lemma {:induction false} ReserveMoves(l: Lists, n: nat)
    requires l.at <= |l.runs| && Reads(l)
    ensures var (r, ok) := Reserve(l, n); var all, p := Blocks(l.runs), Position(l);
            && p <= |all| && (ok <==> p + n < |all|)
            && (!ok ==> Blocks(r.runs) == all && r.oob == l.oob)
            && (ok && !Spans(l, n) ==> Intended(l, n, r))
            && (ok && Spans(l, n) ==> Blocks(r.oob) == Blocks(l.oob) + all[p + n..] && Blocks(r.runs) == all[..p + n])
  {
    hide *;
    var s := SplitTwice(l, n);
    Splits(l, n);
    ReserveIsCases(l, n);
    if Position(l) + n < |Blocks(l.runs)| {
      if Spans(l, n) {
        TakenOut(s.runs, s.middle, |s.runs|);
        UptoEnds(s.runs);
        BlocksAppend(l.oob, s.runs[s.middle..|s.runs|]);
      } else {
        TakenOut(s.runs, s.middle, s.at);
        BlocksAppend(l.oob, s.runs[s.middle..s.at]);
        AtFront(Cutout(s.runs, s.middle, s.at), s.middle, l.oob + s.runs[s.middle..s.at]);
        IntendedIs(l, n, Reserve(l, n).0);
      }
    }
  }

  lemma AtFront(runs: seq<Run>, k: nat, oob: seq<Run>)
    requires k <= |runs|
    ensures Position(Lists(runs, k, 0, oob)) == Upto(runs, k)
  {
    hide Upto;
  }

  lemma IntendedIs(l: Lists, n: nat, r: Lists)
    requires l.at <= |l.runs| && r.at <= |r.runs| && Position(l) + n <= |Blocks(l.runs)| && Position(r) == Position(l)
    requires Blocks(r.oob) == Blocks(l.oob) + Blocks(l.runs)[Position(l)..Position(l) + n]
    requires Blocks(r.runs) == Blocks(l.runs)[..Position(l)] + Blocks(l.runs)[Position(l) + n..]
    ensures Intended(l, n, r)
  {
    hide Blocks, Position;
  }

  // ----- the condition, told from the regions -----

  /** A cut adds no boundary behind itself. */
  lemma {:induction false} CutBehind(runs: seq<Run>, k: nat, len: nat, i: nat)
    requires k < |runs| && len <= runs[k].len && k < i <= |runs|
    ensures |Cut(runs, k, len)| == |runs| + 1 && Upto(Cut(runs, k, len), i + 1) == Upto(runs, i)
  {
    hide Blocks, BlocksOf, Walk;
    CutKeeps(runs, k, len);
    var cut := Cut(runs, k, len);
    UptoSplits(cut, i + 1);
    UptoSplits(runs, i);
    assert cut[i + 1..] == runs[i..];
  }

  lemma {:induction false} BoundaryKept(l: Lists, to: nat)
    requires Reads(l) && Position(l) < to
    ensures Boundary(Split(l.runs, l.at, l.partial).runs, to) <==> Boundary(l.runs, to)
  {
    var s := Split(l.runs, l.at, l.partial);
    if s.runs != l.runs {
      assert l.at < |l.runs| && s.runs == Cut(l.runs, l.at, l.partial);
      hide Cut, Split, Walk, Upto, Blocks;
      CutKeeps(l.runs, l.at, l.partial);
      if Boundary(l.runs, to) {
        var k :| 0 < k < |l.runs| && Upto(l.runs, k) == to;
        if k <= l.at {
          UptoGrows(l.runs, k, l.at);
        }
        CutBehind(l.runs, l.at, l.partial, k);
      }
      if Boundary(s.runs, to) {
        var k :| 0 < k < |s.runs| && Upto(s.runs, k) == to;
        if k <= l.at + 1 {
          UptoGrows(s.runs, k, l.at + 1);
        }
        CutBehind(l.runs, l.at, l.partial, k - 1);
      }
    }
  }

  lemma {:induction false} WalkMeets(runs: seq<Run>, at: nat, n: nat)
    requires at <= |runs| && n > 0 && Upto(runs, at) + n < |Blocks(runs)|
    ensures Walk(runs, at, n).1 == 0 <==> Boundary(runs, Upto(runs, at) + n)
    ensures Walk(runs, at, n).1 == 0 ==> Walk(runs, at, n).0 > at
  {
    WalkStops(runs, at, n);
    hide Walk, Upto, Blocks;
    var (j, rest) := Walk(runs, at, n);
    if rest > 0 && Boundary(runs, Upto(runs, at) + n) {
      var k :| 0 < k < |runs| && Upto(runs, k) == Upto(runs, at) + n;
      if k <= j {
        UptoGrows(runs, k, j);
      } else {
        UptoStep(runs, j);
        UptoGrows(runs, j + 1, k);
      }
    }
  }

  lemma {:induction false} SpansIs(l: Lists, n: nat)
    requires Reads(l) && Position(l) + n < |Blocks(l.runs)|
    ensures Spans(l, n) <==> n > 0 && EndsRegion(l, n)
  {
    FirstSplit(l);
    var s1 := Split(l.runs, l.at, l.partial);
    SplitKeeps(s1.runs, s1.at, n);
    if n > 0 {
      WalkMeets(s1.runs, s1.at, n);
      BoundaryKept(l, Position(l) + n);
      SplitWhere(s1.runs, s1.at, n);
    }
    hide Split, Walk, Upto, Blocks, Boundary;
  }

  lemma SplitWhere(runs: seq<Run>, at: nat, len: nat)
    requires at <= |runs|
    ensures var (k, rest) := Walk(runs, at, len); var s := Split(runs, at, len);
            k < |runs| ==> (rest == 0 ==> s.at == at && s.middle == k && s.runs == runs) && (rest > 0 ==> s.middle == at)
  {
    hide Walk, Cut;
  }

  /** No block is in two places. */
  ghost predicate NoneTwice(blocks: seq<nat>) {
    forall i, j :: 0 <= i < j < |blocks| ==> blocks[i] != blocks[j]
  }

  /** A reservation of at least one block, of an allocation in which no block occurs twice, succeeds and does what it is to
      do exactly when its blocks leave something and do not end with a region. */
  lemma {:induction false} ReserveIff(l: Lists, n: nat)
    requires l.at <= |l.runs| && Reads(l) && n > 0 && NoneTwice(Blocks(l.runs))
    ensures Reserve(l, n).1 && Intended(l, n, Reserve(l, n).0)
       <==> Position(l) + n < |Blocks(l.runs)| && !EndsRegion(l, n)
  {
    hide *;
    ReserveMoves(l, n);
    if Position(l) + n < |Blocks(l.runs)| {
      SpansIs(l, n);
      if Spans(l, n) {
        IntendedDiffers(l, n, Reserve(l, n).0);
      }
    }
  }

  lemma IntendedDiffers(l: Lists, n: nat, r: Lists)
    requires l.at <= |l.runs| && n > 0 && NoneTwice(Blocks(l.runs)) && Position(l) + n < |Blocks(l.runs)|
    requires Blocks(r.oob) == Blocks(l.oob) + Blocks(l.runs)[Position(l) + n..]
    ensures !Intended(l, n, r)
  {
    TakesOthers(Blocks(l.runs), Position(l), n, Blocks(l.oob));
    hide Blocks, Position;
  }

  lemma TakesOthers(all: seq<nat>, p: nat, n: nat, oob: seq<nat>)
    requires n > 0 && p + n < |all| && NoneTwice(all)
    ensures oob + all[p + n..] != oob + all[p..p + n]
  {
    assert (oob + all[p + n..])[|oob|] == all[p + n] && (oob + all[p..p + n])[|oob|] == all[p];
  }

  /** Three blocks reserved of a region of three and one of five: the five leave instead. */
  lemma FiveForThree(three: Run, five: Run)
    requires three == Run(10, 3, 0) && five == Run(20, 5, 1)
    ensures Reserve(Lists([three, five], 0, 0, []), 3) == (Lists([three], 0, 0, [five]), true)
  {
    var l := Lists([three, five], 0, 0, []);
    assert Walk(l.runs, 1, 0) == (1, 0);
    assert Split(l.runs, 0, 0) == SplitResult(l.runs, 0, 0);
    assert Split(l.runs, 0, 3) == SplitResult(l.runs, 0, 1);
    assert SplitTwice(l, 3) == SplitResult(l.runs, 0, 1);
    assert Cutout(l.runs, 1, 2) == [three] && l.oob + l.runs[1..2] == [five];
  }

  lemma UptoIs(a: seq<Run>, b: seq<Run>, k: nat)
    requires k <= |a| && k <= |b| && a[..k] == b[..k]
    ensures Upto(a, k) == Upto(b, k)
  {}
}
