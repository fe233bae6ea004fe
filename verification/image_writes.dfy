/** Lists of writes: what the sparse encoder and the seek-and-write mode make of the same list. */
module ImageWrites {
  import opened Words
  import opened Files
  import opened SparseFormat
  import opened OutputFiles
  import SparseRoundTrip
  import Simg2Img
  import Crc32

  datatype Write = Write(off: nat, data: seq<byte>)

  function Most<T>(s: seq<T>): seq<T>
    requires s != []
  {
    s[..|s| - 1]
  }

  function Last<T>(s: seq<T>): T
    requires s != []
  {
    s[|s| - 1]
  }

  lemma SnocParts<T>(s: seq<T>, x: T)
    ensures Most(s + [x]) == s && Last(s + [x]) == x
  {}

  lemma MostAndLast<T>(s: seq<T>)
    requires s != []
    ensures s == Most(s) + [Last(s)]
  {}

  /** The bytes c with every write put in place. */
  function Overlay(c: seq<byte>, ws: seq<Write>): seq<byte> {
    if ws == [] then c else WriteAt(Overlay(c, Most(ws)), Last(ws).off, Last(ws).data)
  }

  /** The image of a list of writes: zeros wherever nothing was written. */
  function FlatImage(ws: seq<Write>, len: nat): seq<byte> {
    Overlay(Zeros(len), ws)
  }

  /** The chunks the sparse writer emits for a list of writes. */
  function Chunks(ws: seq<Write>, bs: nat): seq<Chunk>
    requires bs > 0
  {
    if ws == [] then [] else Place(Chunks(Most(ws), bs), bs, Last(ws).off, Last(ws).data)
  }

  /** The end of a write, rounded up to whole blocks. */
  function End(w: Write, bs: nat): nat
    requires bs > 0
  {
    w.off + |Padded(w.data, bs)|
  }

  /** Whether a write passes the checks of the writer behind the writes ws. */
  predicate Passes(ws: seq<Write>, w: Write, bs: nat, len: nat)
    requires bs > 0
  {
    w.off + |w.data| <= len && w.off >= Size(Chunks(ws, bs), bs) && Divides(bs, w.off)
  }

  /** Every write passes in its turn. */
  predicate Accepted(ws: seq<Write>, bs: nat, len: nat)
    requires bs > 0
  {
    ws == [] || (Accepted(Most(ws), bs, len) && Passes(Most(ws), Last(ws), bs, len))
  }

  /** Aligned, ascending, not overlapping in blocks, and inside the image. */
  ghost predicate WellPlaced(ws: seq<Write>, bs: nat, len: nat)
    requires bs > 0
  {
    && (forall i :: 0 <= i < |ws| ==> Divides(bs, ws[i].off) && ws[i].off + |ws[i].data| <= len)
    && (forall i, j :: 0 <= i < j < |ws| ==> End(ws[i], bs) <= ws[j].off)
  }

  /** The data sizes the int parameters of the writer can carry. */
  ghost predicate Sized(ws: seq<Write>, bs: nat) {
    forall i :: 0 <= i < |ws| ==> |ws[i].data| + bs <= INT_MAX
  }

  lemma PlaceSize(cs: seq<Chunk>, w: Write, bs: nat)
    requires bs > 0 && Divides(bs, Size(cs, bs)) && Divides(bs, w.off) && w.off >= Size(cs, bs)
    ensures ExpandAll(Place(cs, bs, w.off, w.data), bs)
         == ExpandAll(cs, bs) + Zeros(w.off - Size(cs, bs)) + Padded(w.data, bs)
    ensures Size(Place(cs, bs, w.off, w.data), bs) == End(w, bs)
    ensures Divides(bs, End(w, bs))
  {
    hide *;
    GapFilled(cs, w.off, bs);
    PlaceSnoc(cs, w, bs);
    DividesSum(bs, w.off, |Padded(w.data, bs)|);
    SizeIs(cs, bs);
    SizeIs(Place(cs, bs, w.off, w.data), bs);
    EndIs(w, bs);
  }

  lemma SizeIs(cs: seq<Chunk>, bs: nat)
    ensures Size(cs, bs) == |ExpandAll(cs, bs)|
  {}

  lemma EndIs(w: Write, bs: nat)
    requires bs > 0
    ensures End(w, bs) == w.off + |Padded(w.data, bs)|
  {}

  lemma PlaceSnoc(cs: seq<Chunk>, w: Write, bs: nat)
    requires bs > 0
    ensures ExpandAll(Place(cs, bs, w.off, w.data), bs) == ExpandAll(Fill(cs, bs, w.off), bs) + Padded(w.data, bs)
  {
    ExpandSnoc(Fill(cs, bs, w.off), Raw(Padded(w.data, bs)), bs);
    hide ExpandAll, Fill, Padded;
  }

  lemma GapFilled(cs: seq<Chunk>, off: nat, bs: nat)
    requires bs > 0 && Divides(bs, Size(cs, bs)) && Divides(bs, off) && off >= Size(cs, bs)
    ensures ExpandAll(Fill(cs, bs, off), bs) == ExpandAll(cs, bs) + Zeros(off - Size(cs, bs))
  {
    var gap := off - Size(cs, bs);
    DividesSum(bs, Size(cs, bs), gap);
    DivBounds(gap, bs);
    ExpandSnoc(cs, Skip(Div(gap, bs)), bs);
    assert Zeros(0) == [];
    hide ExpandAll, Div, Divides;
  }

  // ----- which lists the writer takes -----

  lemma {:induction false} AcceptedSize(ws: seq<Write>, bs: nat, len: nat)
    requires bs > 0 && Accepted(ws, bs, len)
    ensures Divides(bs, Size(Chunks(ws, bs), bs))
    ensures Size(Chunks(ws, bs), bs) == if ws == [] then 0 else End(Last(ws), bs)
    decreases |ws|
  {
    if ws == [] {
      DividesMultiple(bs, 0);
    } else {
      AcceptedSize(Most(ws), bs, len);
      hide Place, Padded, Size, Divides, End;
      PlaceSize(Chunks(Most(ws), bs), Last(ws), bs);
    }
  }

  lemma WellPlacedSnoc(ws: seq<Write>, w: Write, bs: nat, len: nat)
    requires bs > 0
    ensures WellPlaced(ws + [w], bs, len)
        <==> WellPlaced(ws, bs, len) && w.off + |w.data| <= len && Divides(bs, w.off)
             && forall i :: 0 <= i < |ws| ==> End(ws[i], bs) <= w.off
  {
    hide End, Divides;
    var all := ws + [w];
    if WellPlaced(all, bs, len) {
      forall i | 0 <= i < |ws|
        ensures Divides(bs, ws[i].off) && ws[i].off + |ws[i].data| <= len && End(ws[i], bs) <= w.off
      {
        assert all[i] == ws[i] && all[|ws|] == w;
      }
      forall i, j | 0 <= i < j < |ws|
        ensures End(ws[i], bs) <= ws[j].off
      {
        assert all[i] == ws[i] && all[j] == ws[j];
      }
      assert all[|ws|] == w;
    }
  }

  lemma EndsAscend(ws: seq<Write>, bs: nat, len: nat, off: nat)
    requires bs > 0 && WellPlaced(ws, bs, len) && ws != []
    ensures End(Last(ws), bs) <= off <==> forall i :: 0 <= i < |ws| ==> End(ws[i], bs) <= off
  {
    hide Padded;
    forall i | 0 <= i < |ws| && End(Last(ws), bs) <= off
      ensures End(ws[i], bs) <= off
    {
      assert i < |ws| - 1 ==> End(ws[i], bs) <= ws[|ws| - 1].off;
    }
  }

  /** The writer takes exactly the lists that are aligned, ascending, free of block overlap and inside the image. */
  lemma {:induction false} AcceptedIffWellPlaced(ws: seq<Write>, bs: nat, len: nat)
    requires bs > 0
    ensures Accepted(ws, bs, len) <==> WellPlaced(ws, bs, len)
    decreases |ws|
  {
    if ws != [] {
      var most, w := Most(ws), Last(ws);
      AcceptedIffWellPlaced(most, bs, len);
      MostAndLast(ws);
      WellPlacedSnoc(most, w, bs, len);
      if Accepted(most, bs, len) {
        AcceptedSize(most, bs, len);
        if most != [] {
          EndsAscend(most, bs, len, w.off);
        }
      }
    }
  }

  // ----- the image they make -----

  lemma OverlayLength(c: seq<byte>, ws: seq<Write>, n: nat)
    requires |c| <= n && forall w :: w in ws ==> w.off + |w.data| <= n
    ensures |c| <= |Overlay(c, ws)| <= n
  {
    if ws != [] {
      OverlayLength(c, Most(ws), n);
    }
  }

  lemma WriteResized(c: seq<byte>, off: nat, data: seq<byte>, n: nat)
    requires off + |data| <= n
    ensures WriteAt(Resize(c, n), off, data) == Resize(WriteAt(c, off, data), n)
  {}

  /** Filling up to the image size may be done before or after the writes. */
  lemma {:induction false} OverlayResized(c: seq<byte>, ws: seq<Write>, n: nat)
    requires forall w :: w in ws ==> w.off + |w.data| <= n
    ensures Overlay(Resize(c, n), ws) == Resize(Overlay(c, ws), n)
  {
    if ws != [] {
      hide WriteAt, Resize;
      OverlayResized(c, Most(ws), n);
      WriteResized(Overlay(c, Most(ws)), Last(ws).off, Last(ws).data, n);
    }
  }

  lemma AppendIsWrite(e: seq<byte>, off: nat, data: seq<byte>, pad: nat, n: nat)
    requires |e| <= off && off + |data| <= n
    ensures Resize(e + Zeros(off - |e|) + (data + Zeros(pad)), n) == WriteAt(Resize(e, n), off, data)
  {}

  lemma PaddedIs(data: seq<byte>, bs: nat)
    requires bs > 0
    ensures Padded(data, bs) == data + Zeros(|Padded(data, bs)| - |data|)
  {}

  /** The chunks stand for the image of the writes. */
  lemma {:induction false} ChunksMakeImage(ws: seq<Write>, bs: nat, len: nat)
    requires bs > 0 && Accepted(ws, bs, len)
    ensures Resize(ExpandAll(Chunks(ws, bs), bs), len) == FlatImage(ws, len)
    decreases |ws|
  {
    if ws == [] {
      assert Resize([], len) == Zeros(len);
    } else {
      var w, cs := Last(ws), Chunks(Most(ws), bs);
      ChunksMakeImage(Most(ws), bs, len);
      AcceptedSize(Most(ws), bs, len);
      hide Padded, ExpandAll, Place, WriteAt, Resize, Divides, Zeros;
      PlaceSize(cs, w, bs);
      PaddedIs(w.data, bs);
      AppendIsWrite(ExpandAll(cs, bs), w.off, w.data, |Padded(w.data, bs)| - |w.data|, len);
    }
  }

  lemma MultiplesApart(a: nat, b: nat, bs: nat)
    requires bs > 0 && Divides(bs, a) && Divides(bs, b) && a < b + bs
    ensures a <= b
  {
    DivBounds(a, bs);
    DivBounds(b, bs);
    hide Div, Divides;
    MulGap(Div(b, bs), Div(a, bs), bs);
  }

  lemma EndInside(w: Write, bs: nat, len: nat)
    requires bs > 0 && Divides(bs, len) && Divides(bs, w.off) && w.off + |w.data| <= len
    ensures End(w, bs) <= len
  {
    hide Divides, Padded;
    DividesSum(bs, w.off, |Padded(w.data, bs)|);
    MultiplesApart(End(w, bs), len, bs);
  }

  lemma ChunksInside(ws: seq<Write>, bs: nat, len: nat)
    requires bs > 0 && Divides(bs, len) && Accepted(ws, bs, len)
    ensures Size(Chunks(ws, bs), bs) <= len
  {
    AcceptedSize(ws, bs, len);
    hide Size, Chunks, End, Divides;
    if ws != [] {
      EndInside(Last(ws), bs, len);
    }
  }

  /** The chunks of the finished image: the writes, and a last skip to the end. */
  function ImageChunks(ws: seq<Write>, bs: nat, len: nat): seq<Chunk>
    requires bs > 0
  {
    Fill(Chunks(ws, bs), bs, len)
  }

  lemma ResizeLonger(e: seq<byte>, n: nat)
    requires |e| <= n
    ensures Resize(e, n) == e + Zeros(n - |e|)
  {}

  lemma ImageChunksExpand(ws: seq<Write>, bs: nat, len: nat)
    requires bs > 0 && Divides(bs, len) && Accepted(ws, bs, len)
    ensures ExpandAll(ImageChunks(ws, bs, len), bs) == FlatImage(ws, len)
    ensures |FlatImage(ws, len)| == len
  {
    AcceptedSize(ws, bs, len);
    ChunksInside(ws, bs, len);
    ChunksMakeImage(ws, bs, len);
    var cs := Chunks(ws, bs);
    hide *;
    SizeIs(cs, bs);
    GapFilled(cs, len, bs);
    ResizeLonger(ExpandAll(cs, bs), len);
    ImageChunksIs(ws, bs, len);
  }

  lemma ImageChunksIs(ws: seq<Write>, bs: nat, len: nat)
    requires bs > 0
    ensures ImageChunks(ws, bs, len) == Fill(Chunks(ws, bs), bs, len)
  {}

  lemma SkipFits(gap: nat, bs: nat, len: nat)
    requires bs > 0 && gap <= len && Div(len, bs) < TWO32
    ensures SparseRoundTrip.Fits(Skip(Div(gap, bs)), bs)
  {
    hide Div;
    DivMonotone(gap, len, bs);
  }

  lemma FillFits(cs: seq<Chunk>, off: nat, bs: nat, len: nat)
    requires bs > 0 && SparseRoundTrip.AllFit(cs, bs) && off <= len && Div(len, bs) < TWO32
    ensures SparseRoundTrip.AllFit(Fill(cs, bs, off), bs) && |Fill(cs, bs, off)| <= |cs| + 1
  {
    if off > Size(cs, bs) {
      SkipFits(off - Size(cs, bs), bs, len);
    }
    hide Size, Div, SparseRoundTrip.Fits;
  }

  lemma RawFits(data: seq<byte>, bs: nat)
    requires bs > 0 && |data| + bs <= INT_MAX
    ensures SparseRoundTrip.Fits(Raw(Padded(data, bs)), bs)
  {}

  lemma {:induction false} ChunksFit(ws: seq<Write>, bs: nat, len: nat)
    requires bs > 0 && Accepted(ws, bs, len) && Sized(ws, bs) && Div(len, bs) < TWO32
    ensures SparseRoundTrip.AllFit(Chunks(ws, bs), bs) && |Chunks(ws, bs)| <= 2 * |ws|
    decreases |ws|
  {
    if ws != [] {
      var w, cs := Last(ws), Chunks(Most(ws), bs);
      assert |w.data| + bs <= INT_MAX;
      ChunksFit(Most(ws), bs, len);
      hide SparseRoundTrip.Fits, Fill, Padded, Size, Div, Divides;
      FillFits(cs, w.off, bs, len);
      RawFits(w.data, bs);
    }
  }

  /** The sparse round trip, from the list of writes to the expanded image. */
  lemma SparseImageExpands(ws: seq<Write>, bs: u32, len: nat)
    requires bs > 0 && IsPow2(bs) && Divides(bs, len) && Div(len, bs) < TWO32
    requires WellPlaced(ws, bs, len) && Sized(ws, bs) && 2 * |ws| < INT_MAX
    ensures var image := FlatImage(ws, len);
            Simg2Img.ReadFile(SparseFile(ImageChunks(ws, bs, len), bs, len, Crc32.Checksum(image))) == Simg2Img.Image(image)
  {
    var cs := ImageChunks(ws, bs, len);
    hide *;
    AcceptedIffWellPlaced(ws, bs, len);
    ImageChunksExpand(ws, bs, len);
    ChunksFit(ws, bs, len);
    FillFits(Chunks(ws, bs), len, bs, len);
    ImageChunksIs(ws, bs, len);
    SparseRoundTrip.RoundTrip(cs, bs, FlatImage(ws, len));
  }

  // ----- the plain mode -----

  /** The plain file after padding. */
  function PlainImage(ws: seq<Write>, len: nat): seq<byte>
    requires len > 0
  {
    WriteAt(Overlay([], ws), len - 1, [0])
  }

  lemma LastByteCleared(c: seq<byte>, len: nat)
    requires 0 < len && |c| <= len
    ensures WriteAt(c, len - 1, [0]) == Resize(c, len)[len - 1 := 0]
  {}

  /** The plain file is the same image with its last byte cleared, so the two modes agree exactly when the image
      ends in a zero byte. */
  lemma ModesAgree(ws: seq<Write>, len: nat)
    requires len > 0 && forall w :: w in ws ==> w.off + |w.data| <= len
    ensures |FlatImage(ws, len)| == len
    ensures PlainImage(ws, len) == FlatImage(ws, len)[len - 1 := 0]
    ensures PlainImage(ws, len) == FlatImage(ws, len) <==> FlatImage(ws, len)[len - 1] == 0
  {
    assert Resize([], len) == Zeros(len);
    OverlayLength([], ws, len);
    OverlayResized([], ws, len);
    hide Overlay, WriteAt, Resize, Zeros;
    LastByteCleared(Overlay([], ws), len);
    var image := FlatImage(ws, len);
    assert image[len - 1 := 0] == image <==> image[len - 1] == 0;
  }

  // ----- reading the image back -----

  lemma {:induction false} OverlayKeeps(c: seq<byte>, ws: seq<Write>, p: nat)
    requires p < |c| && forall w :: w in ws ==> !(w.off <= p < w.off + |w.data|)
    ensures p < |Overlay(c, ws)| && Overlay(c, ws)[p] == c[p]
  {
    if ws != [] {
      assert Last(ws) in ws;
      OverlayKeeps(c, Most(ws), p);
    }
  }

  lemma {:induction false} OverlayAppend(c: seq<byte>, a: seq<Write>, b: seq<Write>)
    ensures Overlay(c, a + b) == Overlay(Overlay(c, a), b)
    decreases |b|
  {
    if b == [] {
      assert a + b == a;
    } else {
      assert a + b == (a + Most(b)) + [Last(b)];
      SnocParts(a + Most(b), Last(b));
      hide WriteAt;
      OverlayAppend(c, a, Most(b));
    }
  }

  /** Every byte of a write that no later write covers is in the image. */
  lemma ImageHoldsByte(c: seq<byte>, ws: seq<Write>, i: nat, k: nat)
    requires i < |ws| && k < |ws[i].data|
    requires forall j :: i < j < |ws| ==> !(ws[j].off <= ws[i].off + k < ws[j].off + |ws[j].data|)
    ensures ws[i].off + k < |Overlay(c, ws)| && Overlay(c, ws)[ws[i].off + k] == ws[i].data[k]
  {
    var w, before, after := ws[i], ws[..i], ws[i + 1..];
    assert ws == (before + [w]) + after;
    OverlayAppend(c, before + [w], after);
    LastWriteHeld(c, before, w, k);
    hide Overlay, WriteAt;
    OverlayKeeps(Overlay(c, before + [w]), after, w.off + k);
  }

  lemma LastWriteHeld(c: seq<byte>, before: seq<Write>, w: Write, k: nat)
    requires k < |w.data|
    ensures w.off + k < |Overlay(c, before + [w])| && Overlay(c, before + [w])[w.off + k] == w.data[k]
  {
    SnocParts(before, w);
  }

  lemma LaterWritesApart(ws: seq<Write>, bs: nat, len: nat, i: nat, j: nat, p: nat)
    requires bs > 0 && WellPlaced(ws, bs, len) && i < j < |ws| && p < ws[i].off + |ws[i].data|
    ensures p < ws[j].off
  {
    assert End(ws[i], bs) <= ws[j].off;
    hide Divides;
  }

  lemma ByteOfWrite(ws: seq<Write>, bs: nat, len: nat, i: nat, k: nat)
    requires bs > 0 && WellPlaced(ws, bs, len) && i < |ws| && k < |ws[i].data|
    ensures ws[i].off + k < |FlatImage(ws, len)| && FlatImage(ws, len)[ws[i].off + k] == ws[i].data[k]
  {
    hide Overlay, WellPlaced, Zeros;
    forall j | i < j < |ws|
      ensures !(ws[j].off <= ws[i].off + k < ws[j].off + |ws[j].data|)
    {
      LaterWritesApart(ws, bs, len, i, j, ws[i].off + k);
    }
    ImageHoldsByte(Zeros(len), ws, i, k);
  }

  lemma FlatImageLength(ws: seq<Write>, bs: nat, len: nat)
    requires bs > 0 && WellPlaced(ws, bs, len)
    ensures |FlatImage(ws, len)| == len && forall x :: x in ws ==> x.off + |x.data| <= len
  {
    assert forall x :: x in ws ==> x.off + |x.data| <= len;
    OverlayLength(Zeros(len), ws, len);
    hide Overlay, Zeros;
  }

  /** The image of a well-placed list holds the data of every write. */
  lemma ImageHoldsWrite(ws: seq<Write>, bs: nat, len: nat, i: nat)
    requires bs > 0 && WellPlaced(ws, bs, len) && i < |ws|
    ensures |FlatImage(ws, len)| == len && ws[i].off + |ws[i].data| <= len
    ensures FlatImage(ws, len)[ws[i].off..ws[i].off + |ws[i].data|] == ws[i].data
  {
    hide *;
    FlatImageLength(ws, bs, len);
    var w, image := ws[i], FlatImage(ws, len);
    forall k | 0 <= k < |w.data|
      ensures image[w.off + k] == w.data[k]
    {
      ByteOfWrite(ws, bs, len, i, k);
    }
    assert image[w.off..w.off + |w.data|] == w.data;
  }
}
