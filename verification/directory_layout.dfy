/** Where directory records go: the size computed up front and the placement of each record, side by side. */
module DirectoryLayout {
  import opened Words

  /** ALIGN(n, 4) */
  function Align4(n: nat): nat { (n + 3) / 4 * 4 }

  /** The bytes a record needs: a header of eight and the padded name. */
  function RecordLen(nameLen: nat): nat { 8 + Align4(nameLen) }

  predicate BlockSize(bs: nat) { bs % 4 == 0 && 1024 <= bs < 0x1_0000 }

  predicate NameLen(n: nat) { n < 0x100 }

  lemma RecordLenBounds(n: nat)
    requires NameLen(n)
    ensures RecordLen(n) % 4 == 0 && 8 <= RecordLen(n) <= 264 && n + 8 <= RecordLen(n) < n + 12
  {}

  // ----- the two placements -----

  /** Where dentry_size starts a record: it moves only if it would end behind the block. */
  function SizeStart(p: nat, l: nat, bs: nat): nat
    requires bs > 0
  {
    if Rem(p, bs) + l > bs then p + (bs - Rem(p, bs)) else p
  }

  /** Where add_dentry starts a record: it moves also when it would end exactly at the block's end. */
  function PlaceStart(p: nat, l: nat, bs: nat): nat
    requires bs > 0
  {
    MulNonNegative(Blk(p + l, bs), bs);
    if Blk(p, bs) != Blk(p + l, bs) then Blk(p + l, bs) * bs else p
  }

  /** The end of the first k entries as dentry_size counts, behind "." and "..". */
  function SizeEnd(lens: seq<nat>, k: nat, bs: nat): nat
    requires k <= |lens| && bs > 0
  {
    if k == 0 then 24 else SizeStart(SizeEnd(lens, k - 1, bs), lens[k - 1], bs) + lens[k - 1]
  }

  /** The end of the first k entries as they are placed. */
  function PlaceEnd(lens: seq<nat>, k: nat, bs: nat): nat
    requires k <= |lens| && bs > 0
  {
    if k == 0 then 24 else PlaceStart(PlaceEnd(lens, k - 1, bs), lens[k - 1], bs) + lens[k - 1]
  }

  ghost predicate RecordLens(lens: seq<nat>) {
    forall i :: 0 <= i < |lens| ==> lens[i] % 4 == 0 && 8 <= lens[i] <= 264
  }

  function Blk(p: int, bs: nat): int
    requires bs > 0
  {
    p / bs
  }

  function Rem(p: int, bs: nat): int
    requires bs > 0
  {
    p % bs
  }

  // ----- positions by block and offset -----

  /** A position r bytes into block q, and a record of l bytes there. */
  lemma {:induction false} BlockOf(q: nat, r: nat, l: nat, bs: nat)
    requires r < bs && l <= bs
    ensures var p := q * bs + r;
            && 0 <= q * bs && Blk(p, bs) == q && Rem(p, bs) == r
            && Blk(p + l, bs) == (if r + l < bs then q else if r + l < 2 * bs then q + 1 else q + 2)
  {
    var p := q * bs + r;
    MulNonNegative(q, bs);
    ModUnique(p, bs, q, r);
    if r + l < bs {
      ModUnique(p + l, bs, q, r + l);
    } else {
      assert bs * (q + 1) == q * bs + bs;
      ModUnique(p + l, bs, q + 1, r + l - bs);
    }
  }

  /** The start of a record from block and offset. */
  lemma {:induction false} StartsAt(q: nat, r: nat, l: nat, bs: nat)
    requires r < bs && l < bs
    ensures 0 <= q * bs
    ensures SizeStart(q * bs + r, l, bs) == if r + l > bs then q * bs + bs else q * bs + r
    ensures PlaceStart(q * bs + r, l, bs) == if r + l >= bs then q * bs + bs else q * bs + r
  {
    BlockOf(q, r, l, bs);
    assert (q + 1) * bs == q * bs + bs;
  }

  /** A position taken apart. */
  lemma {:induction false} Position(p: nat, bs: nat)
    requires bs > 0
    ensures 0 <= Blk(p, bs) && 0 <= Rem(p, bs) < bs && p == Blk(p, bs) * bs + Rem(p, bs)
  {}

  lemma {:induction false} RecordMoves(p: nat, l: nat, bs: nat)
    requires BlockSize(bs) && 8 <= l <= 264 && Rem(p, bs) + l >= bs
    ensures var s := PlaceStart(p, l, bs);
            && s == (Blk(p, bs) + 1) * bs == p - Rem(p, bs) + bs
            && Blk(s, bs) == Blk(p, bs) + 1 && Rem(s, bs) == 0 && Rem(s + l, bs) == l && Blk(s + l, bs) == Blk(s + l - 1, bs) == Blk(s, bs)
            && (Rem(p, bs) > 0 ==> Blk(s - 1, bs) == Blk(p, bs)) && 0 <= Rem(p, bs) < bs
  {
    hide Blk, Rem;
    var q, r := Blk(p, bs), Rem(p, bs);
    Position(p, bs);
    StartsAt(q, r, l, bs);
    assert (q + 1) * bs == q * bs + bs;
    hide PlaceStart, SizeStart;
    BlockOf(q + 1, 0, l, bs);
    BlockOf(q + 1, l, 0, bs);
    BlockOf(q + 1, 0, l - 1, bs);
    if r > 0 {
      BlockOf(q, r, bs - r - 1, bs);
    }
  }

  lemma {:induction false} RecordStays(p: nat, l: nat, bs: nat)
    requires BlockSize(bs) && 8 <= l <= 264 && Rem(p, bs) + l < bs
    ensures PlaceStart(p, l, bs) == p == SizeStart(p, l, bs)
    ensures Rem(p + l, bs) == Rem(p, bs) + l && Blk(p + l, bs) == Blk(p + l - 1, bs) == Blk(p, bs)
  {
    hide Blk, Rem;
    var q, r := Blk(p, bs), Rem(p, bs);
    Position(p, bs);
    StartsAt(q, r, l, bs);
    hide PlaceStart, SizeStart;
    BlockOf(q, r, l, bs);
    BlockOf(q, r, l - 1, bs);
    BlockOf(q, r + l, 0, bs);
  }

  lemma {:induction false} SizeMoves(p: nat, l: nat, bs: nat)
    requires BlockSize(bs) && 8 <= l <= 264 && Rem(p, bs) + l >= bs
    ensures SizeStart(p, l, bs) <= PlaceStart(p, l, bs)
    ensures Rem(p, bs) + l != bs ==> SizeStart(p, l, bs) == PlaceStart(p, l, bs)
  {
    hide Blk, Rem;
    Position(p, bs);
    StartsAt(Blk(p, bs), Rem(p, bs), l, bs);
  }

  /** A placed record ends inside its block and never at the block's end. */
  lemma {:induction false} PlaceFacts(p: nat, l: nat, bs: nat)
    requires BlockSize(bs) && 8 <= l <= 264
    ensures var s := PlaceStart(p, l, bs);
            && p <= s && Rem(s + l, bs) > 0 && Blk(s, bs) == Blk(s + l - 1, bs) == Blk(s + l, bs)
            && (s != p ==> Rem(s, bs) == 0 && s < p + bs && (Rem(p, bs) > 0 ==> Blk(p, bs) == Blk(s - 1, bs)))
  {
    hide *;
    RemBelow(p, bs);
    if Rem(p, bs) + l >= bs {
      RecordMoves(p, l, bs);
    } else {
      RecordStays(p, l, bs);
    }
  }

  lemma {:induction false} BlockEnds(p: nat, q: nat, bs: nat)
    requires bs > 0
    ensures p < q * bs <==> Blk(p, bs) < q
  {
    DivBounds(p, bs);
    if p / bs < q {
      MulGap(p / bs, q, bs);
    } else {
      MulGap(q, p / bs, bs);
    }
  }

  /** A record that ends behind a buffer of whole blocks lies behind it as a whole. */
  lemma {:induction false} BehindTheEnd(p: nat, l: nat, bs: nat, blocks: nat)
    requires BlockSize(bs) && 8 <= l <= 264 && PlaceStart(p, l, bs) + l > blocks * bs
    ensures PlaceStart(p, l, bs) >= blocks * bs
  {
    PlaceFacts(p, l, bs);
    var s := PlaceStart(p, l, bs);
    BlockEnds(s, blocks, bs);
    BlockEnds(s + l - 1, blocks, bs);
    hide PlaceStart, Blk, Rem;
  }

  lemma RemBelow(p: nat, bs: nat)
    requires BlockSize(bs)
    ensures 1024 <= bs && 0 <= Rem(p, bs) < bs
  {}

  /** The positions stay multiples of four. */
  lemma {:induction false} PlaceAligned(p: nat, l: nat, bs: nat)
    requires BlockSize(bs) && 8 <= l <= 264 && p % 4 == 0 && l % 4 == 0
    ensures PlaceStart(p, l, bs) % 4 == 0 && (PlaceStart(p, l, bs) + l) % 4 == 0
  {
    hide *;
    RemBelow(p, bs);
    if Rem(p, bs) + l >= bs {
      RecordMoves(p, l, bs);
      NextBlockAligned(p, bs);
    } else {
      RecordStays(p, l, bs);
    }
    SumAligned(PlaceStart(p, l, bs), l);
  }

  lemma SumAligned(s: nat, l: nat)
    requires s % 4 == 0 && l % 4 == 0
    ensures (s + l) % 4 == 0
  {}

  lemma NextBlockAligned(p: nat, bs: nat)
    requires BlockSize(bs)
    ensures (Blk(p, bs) + 1) * bs % 4 == 0
  {
    hide Blk, Rem;
    Position(p, bs);
    var q: nat := Blk(p, bs) + 1;
    MultipleOfFour(q, bs);
  }

  /** The size never counts a record further out than it is placed, and counts it elsewhere only when it would end
      exactly at a block's end. */
  lemma {:induction false} SizeFacts(p: nat, l: nat, bs: nat)
    requires BlockSize(bs) && 8 <= l <= 264
    ensures SizeStart(p, l, bs) <= PlaceStart(p, l, bs)
    ensures Rem(p, bs) + l != bs ==> SizeStart(p, l, bs) == PlaceStart(p, l, bs)
  {
    hide Blk, Rem;
    if Rem(p, bs) + l >= bs {
      SizeMoves(p, l, bs);
    } else {
      RecordStays(p, l, bs);
    }
  }

  lemma MultipleOfFour(q: nat, bs: nat)
    requires bs % 4 == 0
    ensures q * bs % 4 == 0
  {
    var c := bs / 4;
    assert q * bs == 4 * (q * c);
  }

  /** The size counts in order: a later start for a later position. */
  lemma {:induction false} SizeMonotone(p: nat, q: nat, l: nat, bs: nat)
    requires BlockSize(bs) && 8 <= l <= 264 && p <= q
    ensures SizeStart(p, l, bs) <= SizeStart(q, l, bs)
  {
    hide Blk, Rem;
    Position(p, bs);
    Position(q, bs);
    StartsAt(Blk(p, bs), Rem(p, bs), l, bs);
    StartsAt(Blk(q, bs), Rem(q, bs), l, bs);
    MulGap(Blk(p, bs), Blk(q, bs), bs);
    MulGap(Blk(q, bs), Blk(p, bs), bs);
    hide SizeStart, PlaceStart;
  }

  lemma {:induction false} WholeBlocks(q: nat, r: nat, bs: nat)
    requires r < bs
    ensures Rem(q * bs + r, bs) == r && Blk(q * bs + r, bs) == q
  {
    BlockOf(q, r, 0, bs);
  }

  // ----- whole directories -----

  /** The placement never ends in front of the count. */
  lemma {:induction false} SizeIsLess(lens: seq<nat>, k: nat, bs: nat)
    requires BlockSize(bs) && RecordLens(lens) && k <= |lens|
    ensures SizeEnd(lens, k, bs) <= PlaceEnd(lens, k, bs)
  {
    hide Blk, Rem;
    if k > 0 {
      SizeIsLess(lens, k - 1, bs);
      SizeMonotone(SizeEnd(lens, k - 1, bs), PlaceEnd(lens, k - 1, bs), lens[k - 1], bs);
      SizeFacts(PlaceEnd(lens, k - 1, bs), lens[k - 1], bs);
    }
    hide SizeStart, PlaceStart;
  }

  /** No entry is counted to end exactly at a block's end. */
  ghost predicate NoExactFit(lens: seq<nat>, bs: nat)
    requires bs > 0
  {
    forall i :: 0 <= i < |lens| ==> Rem(SizeEnd(lens, i, bs), bs) + lens[i] != bs
  }

  /** Then both placements are the same. */
  lemma {:induction false} SizeIsSame(lens: seq<nat>, k: nat, bs: nat)
    requires BlockSize(bs) && RecordLens(lens) && k <= |lens| && NoExactFit(lens, bs)
    ensures SizeEnd(lens, k, bs) == PlaceEnd(lens, k, bs)
  {
    hide Blk, Rem, SizeStart, PlaceStart;
    if k > 0 {
      SizeIsSame(lens, k - 1, bs);
      SizeFacts(SizeEnd(lens, k - 1, bs), lens[k - 1], bs);
    }
    hide SizeStart, PlaceStart;
  }

  lemma {:induction false} PlaceEndFacts(lens: seq<nat>, k: nat, bs: nat)
    requires BlockSize(bs) && RecordLens(lens) && k <= |lens|
    ensures var e := PlaceEnd(lens, k, bs); Rem(e, bs) > 0 && (k > 0 ==> PlaceEnd(lens, k - 1, bs) < e)
  {
    hide Blk, Rem, PlaceStart;
    if k > 0 {
      PlaceFacts(PlaceEnd(lens, k - 1, bs), lens[k - 1], bs);
    } else {
      WholeBlocks(0, 24, bs);
    }
  }

  lemma {:induction false} PlaceEndAligned(lens: seq<nat>, k: nat, bs: nat)
    requires BlockSize(bs) && RecordLens(lens) && k <= |lens|
    ensures PlaceEnd(lens, k, bs) % 4 == 0
  {
    hide Blk, Rem, PlaceStart;
    if k > 0 {
      PlaceEndAligned(lens, k - 1, bs);
      PlaceAligned(PlaceEnd(lens, k - 1, bs), lens[k - 1], bs);
    }
  }

  /** The bytes make_directory allocates. */
  function DirLen(lens: seq<nat>, bs: nat): nat
    requires bs > 0
  {
    DivRoundUpBounds(SizeEnd(lens, |lens|, bs), bs);
    DivRoundUp(SizeEnd(lens, |lens|, bs), bs) * bs
  }

  lemma {:induction false} DirLenFacts(lens: seq<nat>, bs: nat)
    requires BlockSize(bs)
    ensures var len := DirLen(lens, bs);
            SizeEnd(lens, |lens|, bs) <= len < SizeEnd(lens, |lens|, bs) + bs && Rem(len, bs) == 0 && len % 4 == 0
  {
    var blocks := DivRoundUp(SizeEnd(lens, |lens|, bs), bs);
    DivRoundUpBounds(SizeEnd(lens, |lens|, bs), bs);
    hide SizeEnd, DivRoundUp, Rem, Blk;
    MultipleOfFour(blocks, bs);
    WholeBlocks(blocks, 0, bs);
  }

  /** What is left behind the last entry: never nothing, less than a block, and a multiple of four. */
  lemma {:induction false} LeftOver(lens: seq<nat>, bs: nat)
    requires BlockSize(bs) && RecordLens(lens)
    ensures var len, end := DirLen(lens, bs), PlaceEnd(lens, |lens|, bs);
            end != len && (end < len ==> 4 <= len - end < bs && (len - end) % 4 == 0)
  {
    hide SizeEnd, PlaceEnd, DirLen, RecordLens, Rem;
    DirLenFacts(lens, bs);
    SizeIsLess(lens, |lens|, bs);
    PlaceEndFacts(lens, |lens|, bs);
    PlaceEndAligned(lens, |lens|, bs);
  }

  /** Without an exact fit the directory always has room for its entries. */
  lemma {:induction false} NoExactFitFits(lens: seq<nat>, bs: nat)
    requires BlockSize(bs) && RecordLens(lens) && NoExactFit(lens, bs)
    ensures PlaceEnd(lens, |lens|, bs) == SizeEnd(lens, |lens|, bs) < DirLen(lens, bs)
  {
    hide *;
    DirLenFacts(lens, bs);
    SizeIsSame(lens, |lens|, bs);
    LeftOver(lens, bs);
  }

  lemma {:induction false} InFirstBlock(p: nat, l: nat)
    requires p < 1024 && 8 <= l <= 264
    ensures SizeStart(p, l, 1024) == (if p + l > 1024 then 1024 else p)
    ensures PlaceStart(p, l, 1024) == (if p + l >= 1024 then 1024 else p)
  {
    StartsAt(0, p, l, 1024);
  }

  /** An entry counted to end exactly at the block's end can make the directory too small for itself. */
  lemma {:induction false} ExactFitAborts()
    ensures var lens := [264, 264, 264, 208];
            DirLen(lens, 1024) == 1024 && PlaceEnd(lens, 4, 1024) == 1232
  {
    var lens := [264, 264, 264, 208];
    InFirstBlock(24, 264);
    InFirstBlock(288, 264);
    InFirstBlock(552, 264);
    InFirstBlock(816, 208);
    hide SizeStart, PlaceStart;
    assert SizeEnd(lens, 1, 1024) == 288 == PlaceEnd(lens, 1, 1024);
    assert SizeEnd(lens, 2, 1024) == 552 == PlaceEnd(lens, 2, 1024);
    assert SizeEnd(lens, 3, 1024) == 816 == PlaceEnd(lens, 3, 1024);
    assert SizeEnd(lens, 4, 1024) == 1024 && PlaceEnd(lens, 4, 1024) == 1232;
    hide SizeEnd, PlaceEnd;
    DivRoundUpUnique(1024, 1024, 1);
  }

  /** And the entries can leave four bytes, too few for the closing record. */
  lemma {:induction false} FourBytesLeft()
    ensures var lens := [264, 264, 264, 204];
            NoExactFit(lens, 1024) && DirLen(lens, 1024) - PlaceEnd(lens, 4, 1024) == 4
  {
    var lens := [264, 264, 264, 204];
    InFirstBlock(24, 264);
    InFirstBlock(288, 264);
    InFirstBlock(552, 264);
    InFirstBlock(816, 204);
    hide SizeStart, PlaceStart;
    assert SizeEnd(lens, 0, 1024) == 24;
    assert SizeEnd(lens, 1, 1024) == 288 == PlaceEnd(lens, 1, 1024);
    assert SizeEnd(lens, 2, 1024) == 552 == PlaceEnd(lens, 2, 1024);
    assert SizeEnd(lens, 3, 1024) == 816 == PlaceEnd(lens, 3, 1024);
    assert SizeEnd(lens, 4, 1024) == 1020 == PlaceEnd(lens, 4, 1024);
    WholeBlocks(0, 24, 1024);
    WholeBlocks(0, 288, 1024);
    WholeBlocks(0, 552, 1024);
    WholeBlocks(0, 816, 1024);
    hide SizeEnd, PlaceEnd, Rem;
    DivRoundUpUnique(1020, 1024, 1);
  }
}
