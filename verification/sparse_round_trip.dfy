/** The reader run on what the writer leaves: the image that comes back is what the chunks stand for. */
module SparseRoundTrip {
  import opened Words
  import opened Files
  import opened SparseFormat
  import opened Simg2Img
  import Crc32
  import Crc32Residue

  // ----- skipped regions of power-of-two blocks -----

  lemma BlockDividesMaxSeek(bs: nat)
    requires IsPow2(bs)
    ensures bs > 0 && Divides(bs, MAX_SEEK) && bs <= MAX_SEEK
  {
    var k: nat :| k < 32 && bs == Pow2(k);
    Pow2Values();
    Pow2Add(31 - k, k);
    assert Pow2(32) == 2 * Pow2(31);
    DividesMultiple(bs, Pow2(31 - k));
    MulGap(0, Pow2(31 - k), bs);
  }

  lemma {:induction false} LastSeekIsBlocks(n: nat, bs: nat)
    requires bs > 0 && Divides(bs, MAX_SEEK) && n > 0 && Divides(bs, n)
    ensures Divides(bs, LastSeek(n))
    decreases n
  {
    if n > MAX_SEEK {
      DividesSum(bs, MAX_SEEK, n - MAX_SEEK);
      LastSeekIsBlocks(n - MAX_SEEK, bs);
    }
  }

  /** With power-of-two blocks the checksum loop over a skipped region always ends. */
  lemma SkipAlwaysEnds(blocks: nat, bs: nat)
    requires IsPow2(bs) && bs > 0 && blocks * bs > 0
    ensures SkipEnds(blocks * bs, bs)
  {
    BlockDividesMaxSeek(bs);
    DividesMultiple(bs, blocks);
    LastSeekIsBlocks(blocks * bs, bs);
    var s := LastSeek(blocks * bs);
    assert s >= bs by {
      if s < bs {
        SmallRemainder(s, bs);
      }
    }
  }

  // ----- files with longer headers -----

  /** A file header and chunk headers that may be longer than this version knows: `extra` follows the one, `pad` each of
      the others. */
  datatype Format = Format(h: Header, extra: seq<byte>, pad: seq<byte>)

  /** A chunk with this size field. */
  function SizedChunk(c: Chunk, bs: nat, pad: seq<byte>, size: u32): seq<byte>
    requires bs > 0
  {
    EncodeChunkHeader(HeaderOf(c, bs, size)) + (pad + Body(c))
  }

  function HeaderOf(c: Chunk, bs: nat, size: u32): ChunkHeader
    requires bs > 0
  {
    match c
    case Raw(data) => ChunkHeader(CHUNK_TYPE_RAW, 0, Div(|data|, bs) % TWO32, size)
    case Skip(blocks) => ChunkHeader(CHUNK_TYPE_DONT_CARE, 0, blocks % TWO32, size)
  }

  function Body(c: Chunk): seq<byte> { if c.Raw? then c.data else [] }

  /** The size of a chunk as its header has it. */
  function SizeOf(c: Chunk, pad: seq<byte>): u32 { (CHUNK_HEADER_LEN + |pad| + |Body(c)|) % TWO32 }

  function WideChunk(c: Chunk, bs: nat, pad: seq<byte>): seq<byte>
    requires bs > 0
  {
    SizedChunk(c, bs, pad, SizeOf(c, pad))
  }

  function WideAll(cs: seq<Chunk>, bs: nat, pad: seq<byte>): seq<byte>
    requires bs > 0
  {
    if cs == [] then [] else WideAll(cs[..|cs| - 1], bs, pad) + WideChunk(cs[|cs| - 1], bs, pad)
  }

  function WideFile(f: Format, cs: seq<Chunk>): seq<byte>
    requires f.h.blkSz > 0
  {
    EncodeHeader(f.h) + f.extra + WideAll(cs, f.h.blkSz, f.pad)
  }

  lemma WideSnoc(cs: seq<Chunk>, c: Chunk, bs: nat, pad: seq<byte>)
    requires bs > 0
    ensures WideAll(cs + [c], bs, pad) == WideAll(cs, bs, pad) + WideChunk(c, bs, pad)
  {
    assert (cs + [c])[..|cs|] == cs;
  }

  lemma PlainChunk(c: Chunk, bs: nat)
    requires bs > 0
    ensures WideChunk(c, bs, []) == EncodeChunk(c, bs)
  {
    assert [] + Body(c) == Body(c);
    hide EncodeChunkHeader, Div;
  }

  /** Without additional bytes these are the chunks of the writer. */
  lemma {:induction false} PlainAll(cs: seq<Chunk>, bs: nat)
    requires bs > 0
    ensures WideAll(cs, bs, []) == EncodeAll(cs, bs)
  {
    hide WideChunk, EncodeChunk;
    if cs != [] {
      PlainAll(cs[..|cs| - 1], bs);
      PlainChunk(cs[|cs| - 1], bs);
    }
  }

  // ----- one chunk -----

  /** The bytes e lie in the file at pos. */
  ghost predicate At(file: seq<byte>, pos: nat, e: seq<byte>) {
    pos + |e| <= |file| && file[pos..pos + |e|] == e
  }

  /** The input position behind the chunks read so far. */
  function Front(f: Format, done: seq<Chunk>): nat
    requires f.h.blkSz > 0
  {
    HEADER_LEN + |f.extra| + |WideAll(done, f.h.blkSz, f.pad)|
  }

  /** The reader's state behind the chunks read so far, with `out` in its output file. */
  function Reached(f: Format, done: seq<Chunk>, out: seq<byte>): Reading
    requires f.h.blkSz > 0
  {
    var e := ExpandAll(done, f.h.blkSz);
    Reading(Front(f, done), out, |e|, Blocks(|e|, f.h.blkSz), Crc32.Crc(0, e))
  }

  /** The number of blocks in n bytes, as the 32-bit counter holds it. */
  function Blocks(n: nat, bs: nat): u32
    requires bs > 0
  {
    Div(n, bs) % TWO32
  }

  /** Whole blocks, and sizes a chunk header can hold. */
  ghost predicate Fits(c: Chunk, bs: nat)
    requires bs > 0
  {
    match c
    case Raw(data) => Divides(bs, |data|) && |data| + CHUNK_HEADER_LEN < TWO32
    case Skip(blocks) => blocks < TWO32
  }

  /** The header gives the lengths of the headers, and blocks of a power of two. */
  ghost predicate Ours(f: Format) {
    && IsPow2(f.h.blkSz) && f.h.blkSz > 0
    && f.h.fileHdrSz == HEADER_LEN + |f.extra| && f.h.chunkHdrSz == CHUNK_HEADER_LEN + |f.pad|
  }

  /** The reader's state behind a chunk header. */
  function Behind(r: Reading, pad: seq<byte>): Reading {
    r.(pos := r.pos + CHUNK_HEADER_LEN + |pad|)
  }

  /** Reading the header of a chunk leaves its body. */
  lemma ReadHeader(file: seq<byte>, f: Format, c: Chunk, r: Reading, size: u32)
    requires f.h.blkSz > 0 && Ours(f) && At(file, r.pos, SizedChunk(c, f.h.blkSz, f.pad, size))
    ensures c.Raw? ==> ReadChunk(file, f.h, r) == ReadRaw(file, f.h, HeaderOf(c, f.h.blkSz, size), Behind(r, f.pad))
    ensures c.Skip? ==> ReadChunk(file, f.h, r) == ReadSkip(f.h, HeaderOf(c, f.h.blkSz, size), Behind(r, f.pad))
    ensures At(file, r.pos + CHUNK_HEADER_LEN + |f.pad|, Body(c))
  {
    hide *;
    var hd := HeaderOf(c, f.h.blkSz, size);
    SizedIs(c, f.h.blkSz, f.pad, size);
    AtParts(file, r.pos, EncodeChunkHeader(hd), f.pad + Body(c));
    AtParts(file, r.pos + |EncodeChunkHeader(hd)|, f.pad, Body(c));
    AtIs(file, r.pos, EncodeChunkHeader(hd));
    ChunkHeaderRoundTrip(hd);
    ReadChunkIs(file, f, r, c, hd, size);
  }

  lemma SizedIs(c: Chunk, bs: nat, pad: seq<byte>, size: u32)
    requires bs > 0
    ensures SizedChunk(c, bs, pad, size) == EncodeChunkHeader(HeaderOf(c, bs, size)) + (pad + Body(c))
    ensures |EncodeChunkHeader(HeaderOf(c, bs, size))| == CHUNK_HEADER_LEN
  {
    hide HeaderOf, EncodeChunkHeader, Body;
  }

  lemma ReadChunkIs(file: seq<byte>, f: Format, r: Reading, c: Chunk, hd: ChunkHeader, size: u32)
    requires f.h.blkSz > 0 && Ours(f) && hd == HeaderOf(c, f.h.blkSz, size) && r.pos + CHUNK_HEADER_LEN <= |file|
    requires DecodeChunkHeader(file[r.pos..r.pos + CHUNK_HEADER_LEN]) == hd
    ensures c.Raw? ==> ReadChunk(file, f.h, r) == ReadRaw(file, f.h, hd, Behind(r, f.pad))
    ensures c.Skip? ==> ReadChunk(file, f.h, r) == ReadSkip(f.h, hd, Behind(r, f.pad))
  {
    hide *;
    HeaderType(c, f.h.blkSz, size);
    ReadChunkBody(file, f.h, r);
    SkipIs(f, r);
    BodyCases(file, f.h, hd, Behind(r, f.pad), c.Raw?);
  }

  lemma ReadChunkBody(file: seq<byte>, h: Header, r: Reading)
    requires r.pos + CHUNK_HEADER_LEN <= |file|
    ensures ReadChunk(file, h, r) == ReadBody(file, h, DecodeChunkHeader(file[r.pos..r.pos + CHUNK_HEADER_LEN]),
                                              r.(pos := r.pos + CHUNK_HEADER_LEN + HeaderSkip(h)))
  {
    hide DecodeChunkHeader, ReadBody, HeaderSkip;
  }

  lemma SkipIs(f: Format, r: Reading)
    requires Ours(f)
    ensures r.(pos := r.pos + CHUNK_HEADER_LEN + HeaderSkip(f.h)) == Behind(r, f.pad)
  {
    hide IsPow2;
  }

  lemma BodyCases(file: seq<byte>, h: Header, hd: ChunkHeader, r: Reading, raw: bool)
    requires hd.chunkType == if raw then CHUNK_TYPE_RAW else CHUNK_TYPE_DONT_CARE
    ensures raw ==> ReadBody(file, h, hd, r) == ReadRaw(file, h, hd, r)
    ensures !raw ==> ReadBody(file, h, hd, r) == ReadSkip(h, hd, r)
  {
    hide ReadRaw, ReadSkip;
  }

  lemma HeaderType(c: Chunk, bs: nat, size: u32)
    requires bs > 0
    ensures HeaderOf(c, bs, size).chunkType == if c.Raw? then CHUNK_TYPE_RAW else CHUNK_TYPE_DONT_CARE
  {
    hide Div;
  }

  lemma AtIs(file: seq<byte>, pos: nat, e: seq<byte>)
    requires At(file, pos, e)
    ensures pos + |e| <= |file| && file[pos..pos + |e|] == e
  {}

  lemma RawFields(h: Header, c: ChunkHeader, n: nat)
    requires h.blkSz > 0 && Divides(h.blkSz, n) && c.chunkSz == Div(n, h.blkSz)
    ensures BodyLen(h, c) == n && (RawSizeAgrees(h, c) <==> c.totalSz == (h.chunkHdrSz + n) % 0x1_0000_0000)
  {
    DivBounds(n, h.blkSz);
    hide Div;
  }

  lemma RawStep(file: seq<byte>, h: Header, c: ChunkHeader, r: Reading, data: seq<byte>)
    requires BodyLen(h, c) == |data|
    ensures !RawSizeAgrees(h, c) ==> ReadRaw(file, h, c, r) == Stop(Rejected(BogusRawSize))
    ensures RawSizeAgrees(h, c) && At(file, r.pos, data) ==>
              ReadRaw(file, h, c, r) == Next(Advanced(r, |data|, WriteAt(r.out, r.outPos, data), c.chunkSz, data))
    ensures RawSizeAgrees(h, c) && r.pos + |data| > |file| && data != [] ==>
              ReadRaw(file, h, c, r) == Stop(Rejected(ShortRawChunk))
  {
    hide BodyLen, RawSizeAgrees, WriteAt, AddBlocks, Crc32.Crc;
  }

  lemma SkipStep(h: Header, c: ChunkHeader, r: Reading)
    requires h.blkSz > 0 && IsPow2(h.blkSz)
    ensures c.totalSz != h.chunkHdrSz ==> ReadSkip(h, c, r) == Stop(Rejected(BogusSkipSize))
    ensures c.totalSz == h.chunkHdrSz ==>
              ReadSkip(h, c, r) == Next(Advanced(r, 0, r.out, c.chunkSz, Zeros(BodyLen(h, c))))
  {
    if BodyLen(h, c) > 0 {
      SkipAlwaysEnds(c.chunkSz, h.blkSz);
    }
    hide AddBlocks, Crc32.Crc, SkipEnds, Zeros, IsPow2;
  }

  /** The state after a body: n input bytes used, the bytes e accounted for. */
  function Advanced(r: Reading, n: nat, out: seq<byte>, blocks: u32, e: seq<byte>): Reading {
    Reading(r.pos + n, out, r.outPos + |e|, AddBlocks(r.blocks, blocks), Crc32.Crc(r.crc, e))
  }

  lemma AddBlocksSum(a: nat, b: nat)
    ensures AddBlocks(a % TWO32, b % TWO32) == (a + b) % TWO32
  {}

  lemma BlocksSum(a: nat, b: nat, bs: nat)
    requires bs > 0 && Divides(bs, a)
    ensures AddBlocks(Blocks(a, bs), Blocks(b, bs)) == Blocks(a + b, bs)
  {
    hide Div, Divides, AddBlocks;
    DividesSum(bs, a, b);
    AddBlocksSum(Div(a, bs), Div(b, bs));
  }

  /** The reader's state behind one more chunk. */
  lemma ReachedNext(f: Format, done: seq<Chunk>, c: Chunk, out: seq<byte>, out': seq<byte>, n: nat)
    requires f.h.blkSz > 0 && Divides(f.h.blkSz, Size(done, f.h.blkSz))
    requires |WideChunk(c, f.h.blkSz, f.pad)| == CHUNK_HEADER_LEN + |f.pad| + n
    ensures var r, e := Behind(Reached(f, done, out), f.pad), Expand(c, f.h.blkSz);
            Reached(f, done + [c], out') == Advanced(r, n, out', Blocks(|e|, f.h.blkSz), e)
    ensures Reached(f, done, out).out == out && Reached(f, done, out).outPos == Size(done, f.h.blkSz)
    ensures Reached(f, done, out).pos == Front(f, done)
  {
    hide Crc32.Crc, ExpandAll, Expand, WideAll, WideChunk, Divides, AddBlocks, Blocks;
    var bs: nat := f.h.blkSz;
    ExpandSnoc(done, c, bs);
    WideSnoc(done, c, bs, f.pad);
    var all, e := ExpandAll(done, bs), Expand(c, bs);
    Crc32.CrcAppend(0, all, e);
    BlocksSum(|all|, |e|, bs);
  }

  lemma DivSmall(n: nat, d: nat)
    requires d > 0
    ensures Div(n, d) <= n
  {
    MulGap(0, Div(n, d), d);
    MulGap(1, d, Div(n, d));
  }

  /** What the header of a raw chunk says about its body. */
  lemma RawHeader(f: Format, c: Chunk, size: u32)
    requires f.h.blkSz > 0 && Ours(f) && Fits(c, f.h.blkSz) && c.Raw?
    ensures var hd, n := HeaderOf(c, f.h.blkSz, size), |c.data|;
            && hd.chunkSz == Div(n, f.h.blkSz) == Blocks(n, f.h.blkSz) && Divides(f.h.blkSz, n) && hd.totalSz == size
            && CHUNK_HEADER_LEN + |f.pad| + n == |WideChunk(c, f.h.blkSz, f.pad)| && Expand(c, f.h.blkSz) == c.data == Body(c)
            && SizeOf(c, f.pad) == (f.h.chunkHdrSz + n) % 0x1_0000_0000
  {
    DivSmall(|c.data|, f.h.blkSz);
    hide Div, Divides, EncodeChunkHeader, IsPow2;
  }

  lemma SkipHeader(f: Format, c: Chunk, size: u32)
    requires f.h.blkSz > 0 && Ours(f) && Fits(c, f.h.blkSz) && c.Skip?
    ensures var hd, e := HeaderOf(c, f.h.blkSz, size), Expand(c, f.h.blkSz);
            && hd.chunkSz == Blocks(|e|, f.h.blkSz) && hd.totalSz == size && e == Zeros(BodyLen(f.h, hd))
            && CHUNK_HEADER_LEN + |f.pad| == |WideChunk(c, f.h.blkSz, f.pad)| && SizeOf(c, f.pad) == f.h.chunkHdrSz
            && IsPow2(f.h.blkSz)
  {
    DividesMultiple(f.h.blkSz, c.blocks);
    SkipSize(f, c);
    hide Div, Divides, EncodeChunkHeader, Zeros, IsPow2, SizeOf;
  }

  lemma SkipSize(f: Format, c: Chunk)
    requires Ours(f) && c.Skip?
    ensures SizeOf(c, f.pad) == f.h.chunkHdrSz
  {
    SmallSize(|f.pad|, f.h.chunkHdrSz);
    hide IsPow2;
  }

  lemma SmallSize(n: nat, size: u16)
    requires size == CHUNK_HEADER_LEN + n
    ensures (CHUNK_HEADER_LEN + n + 0) % TWO32 == size
  {}

  /** One round of the chunk loop: raw bytes are written, skipped ones are left pending. */
  lemma ReadOneRaw(file: seq<byte>, f: Format, done: seq<Chunk>, c: Chunk, out: seq<byte>)
    requires f.h.blkSz > 0 && Ours(f) && Fits(c, f.h.blkSz) && Divides(f.h.blkSz, Size(done, f.h.blkSz)) && c.Raw?
    requires At(file, Front(f, done), WideChunk(c, f.h.blkSz, f.pad))
    ensures ReadChunk(file, f.h, Reached(f, done, out))
         == Next(Reached(f, done + [c], WriteAt(out, Size(done, f.h.blkSz), c.data)))
  {
    hide *;
    var r, size := Reached(f, done, out), SizeOf(c, f.pad);
    WideIs(c, f.h.blkSz, f.pad);
    RawHeader(f, c, size);
    ReachedNext(f, done, c, out, WriteAt(out, Size(done, f.h.blkSz), c.data), |c.data|);
    ReadHeader(file, f, c, r, size);
    BehindFields(r, f.pad);
    RawFields(f.h, HeaderOf(c, f.h.blkSz, size), |c.data|);
    RawStep(file, f.h, HeaderOf(c, f.h.blkSz, size), Behind(r, f.pad), c.data);
  }

  lemma WideIs(c: Chunk, bs: nat, pad: seq<byte>)
    requires bs > 0
    ensures WideChunk(c, bs, pad) == SizedChunk(c, bs, pad, SizeOf(c, pad))
  {
    hide SizedChunk, SizeOf;
  }

  lemma ReadOneSkip(file: seq<byte>, f: Format, done: seq<Chunk>, c: Chunk, out: seq<byte>)
    requires f.h.blkSz > 0 && Ours(f) && Fits(c, f.h.blkSz) && Divides(f.h.blkSz, Size(done, f.h.blkSz)) && c.Skip?
    requires At(file, Front(f, done), WideChunk(c, f.h.blkSz, f.pad))
    ensures ReadChunk(file, f.h, Reached(f, done, out)) == Next(Reached(f, done + [c], out))
  {
    hide *;
    var r, size := Reached(f, done, out), SizeOf(c, f.pad);
    WideIs(c, f.h.blkSz, f.pad);
    SkipHeader(f, c, size);
    ReachedNext(f, done, c, out, out, 0);
    ReadHeader(file, f, c, r, size);
    BehindFields(r, f.pad);
    SkipStep(f.h, HeaderOf(c, f.h.blkSz, size), Behind(r, f.pad));
  }

  lemma BehindFields(r: Reading, pad: seq<byte>)
    ensures Behind(r, pad).pos == r.pos + CHUNK_HEADER_LEN + |pad| && Behind(r, pad).out == r.out
    ensures Behind(r, pad).outPos == r.outPos
  {}

  // ----- all chunks -----

  lemma {:induction false} WideCons(c: Chunk, rest: seq<Chunk>, bs: nat, pad: seq<byte>)
    requires bs > 0
    ensures WideAll([c] + rest, bs, pad) == WideChunk(c, bs, pad) + WideAll(rest, bs, pad)
    decreases |rest|
  {
    hide WideChunk;
    if rest == [] {
      assert [c] + rest == [] + [c];
      WideSnoc([], c, bs, pad);
    } else {
      var most, last := rest[..|rest| - 1], rest[|rest| - 1];
      assert [c] + rest == ([c] + most) + [last];
      WideCons(c, most, bs, pad);
      WideSnoc([c] + most, last, bs, pad);
      assert (WideChunk(c, bs, pad) + WideAll(most, bs, pad)) + WideChunk(last, bs, pad)
          == WideChunk(c, bs, pad) + (WideAll(most, bs, pad) + WideChunk(last, bs, pad));
    }
  }

  lemma AtParts(file: seq<byte>, pos: nat, a: seq<byte>, b: seq<byte>)
    requires At(file, pos, a + b)
    ensures At(file, pos, a) && At(file, pos + |a|, b)
  {
    var s := file[pos..pos + |a + b|];
    assert file[pos..pos + |a|] == s[..|a|] == a;
    assert file[pos + |a|..pos + |a| + |b|] == s[|a|..] == b;
  }

  /** The output, extended by the zeros still pending, is e. */
  ghost predicate Pending(out: seq<byte>, e: seq<byte>) {
    |out| <= |e| && Resize(out, |e|) == e
  }

  lemma PendingNext(out: seq<byte>, e: seq<byte>, data: seq<byte>)
    requires Pending(out, e)
    ensures Pending(WriteAt(out, |e|, data), e + data)
    ensures data == Zeros(|data|) ==> Pending(out, e + data)
  {}

  /** The output after one more chunk. */
  function OutNext(done: seq<Chunk>, c: Chunk, bs: nat, out: seq<byte>): seq<byte> {
    if c.Raw? then WriteAt(out, Size(done, bs), c.data) else out
  }

  /** The output after the chunks of the list. */
  function OutAfter(done: seq<Chunk>, rest: seq<Chunk>, bs: nat, out: seq<byte>): seq<byte>
    decreases |rest|
  {
    if rest == [] then out
    else
      OutAfter(done + [rest[0]], rest[1..], bs, OutNext(done, rest[0], bs, out))
  }

  lemma DoneNext(f: Format, done: seq<Chunk>, c: Chunk)
    requires f.h.blkSz > 0 && Fits(c, f.h.blkSz) && Divides(f.h.blkSz, Size(done, f.h.blkSz))
    ensures Divides(f.h.blkSz, Size(done + [c], f.h.blkSz))
    ensures Front(f, done + [c]) == Front(f, done) + |WideChunk(c, f.h.blkSz, f.pad)|
  {
    var bs: nat := f.h.blkSz;
    if c.Skip? {
      DividesMultiple(bs, c.blocks);
    }
    ExpandSnoc(done, c, bs);
    WideSnoc(done, c, bs, f.pad);
    hide WideAll, ExpandAll, WideChunk;
    DividesSum(bs, Size(done, bs), |Expand(c, bs)|);
  }

  lemma ReadChunksStep(file: seq<byte>, h: Header, r: Reading, r': Reading, n: nat)
    requires ReadChunk(file, h, r) == Next(r')
    ensures ReadChunks(file, h, r, n + 1) == ReadChunks(file, h, r', n)
  {
    hide ReadChunk;
  }

  lemma FirstAndRest(done: seq<Chunk>, rest: seq<Chunk>)
    ensures done + [] == done
    ensures rest != [] ==> rest == [rest[0]] + rest[1..] && done + rest == (done + [rest[0]]) + rest[1..]
  {}

  lemma ReadNone(file: seq<byte>, h: Header, r: Reading, done: seq<Chunk>, bs: nat, out: seq<byte>, pad: seq<byte>)
    requires bs > 0
    ensures ReadChunks(file, h, r, 0) == Next(r) && OutAfter(done, [], bs, out) == out && |WideAll([], bs, pad)| == 0
  {}

  /** Induction over the chunks still to be read. */
  lemma {:induction false} ReadRest(file: seq<byte>, f: Format, done: seq<Chunk>, rest: seq<Chunk>, out: seq<byte>)
    requires f.h.blkSz > 0 && Ours(f) && AllFit(rest, f.h.blkSz) && Divides(f.h.blkSz, Size(done, f.h.blkSz))
    requires At(file, Front(f, done), WideAll(rest, f.h.blkSz, f.pad))
    ensures ReadChunks(file, f.h, Reached(f, done, out), |rest|)
         == Next(Reached(f, done + rest, OutAfter(done, rest, f.h.blkSz, out)))
    ensures Divides(f.h.blkSz, Size(done + rest, f.h.blkSz))
    ensures Front(f, done + rest) == Front(f, done) + |WideAll(rest, f.h.blkSz, f.pad)|
    decreases |rest|
  {
    hide *;
    var bs := f.h.blkSz;
    FirstAndRest(done, rest);
    if rest == [] {
      ReadNone(file, f.h, Reached(f, done, out), done, bs, out, f.pad);
    } else {
      var c, more := rest[0], rest[1..];
      FitsFirst(rest, bs);
      WideCons(c, more, bs, f.pad);
      AtParts(file, Front(f, done), WideChunk(c, bs, f.pad), WideAll(more, bs, f.pad));
      DoneNext(f, done, c);
      ReadOne(file, f, done, c, out);
      ReadRest(file, f, done + [c], more, OutNext(done, c, bs, out));
      ReadChunksStep(file, f.h, Reached(f, done, out), Reached(f, done + [c], OutNext(done, c, bs, out)), |more|);
      OutAfterNext(done, rest, bs, out);
    }
  }

  ghost predicate AllFit(cs: seq<Chunk>, bs: nat)
    requires bs > 0
  {
    forall c :: c in cs ==> Fits(c, bs)
  }

  lemma FitsFirst(cs: seq<Chunk>, bs: nat)
    requires bs > 0 && AllFit(cs, bs) && cs != []
    ensures Fits(cs[0], bs) && AllFit(cs[1..], bs)
  {
    hide Fits;
  }

  lemma OutAfterNext(done: seq<Chunk>, rest: seq<Chunk>, bs: nat, out: seq<byte>)
    requires rest != []
    ensures OutAfter(done, rest, bs, out) == OutAfter(done + [rest[0]], rest[1..], bs, OutNext(done, rest[0], bs, out))
  {}

  lemma ReadOne(file: seq<byte>, f: Format, done: seq<Chunk>, c: Chunk, out: seq<byte>)
    requires f.h.blkSz > 0 && Ours(f) && Fits(c, f.h.blkSz) && Divides(f.h.blkSz, Size(done, f.h.blkSz))
    requires At(file, Front(f, done), WideChunk(c, f.h.blkSz, f.pad))
    ensures ReadChunk(file, f.h, Reached(f, done, out)) == Next(Reached(f, done + [c], OutNext(done, c, f.h.blkSz, out)))
  {
    hide Ours, Fits, Divides, Size, At, Front, WideChunk, ReadChunk, Reached;
    if c.Raw? {
      ReadOneRaw(file, f, done, c, out);
    } else {
      ReadOneSkip(file, f, done, c, out);
    }
  }

  lemma {:induction false} OutIsPending(done: seq<Chunk>, rest: seq<Chunk>, bs: nat, out: seq<byte>)
    requires Pending(out, ExpandAll(done, bs))
    ensures Pending(OutAfter(done, rest, bs, out), ExpandAll(done + rest, bs))
    decreases |rest|
  {
    if rest == [] {
      assert done + rest == done;
    } else {
      var c, more := rest[0], rest[1..];
      assert done + rest == (done + [c]) + more;
      ExpandSnoc(done, c, bs);
      PendingNext(out, ExpandAll(done, bs), Expand(c, bs));
      hide Pending, ExpandAll, WriteAt, Zeros;
      OutIsPending(done + [c], more, bs, OutNext(done, c, bs, out));
    }
  }

  // ----- the verdict on a whole file -----

  lemma HeaderInFile(file: seq<byte>, h: Header, rest: seq<byte>)
    requires file == EncodeHeader(h) + rest
    ensures |file| >= HEADER_LEN && DecodeHeader(file[..HEADER_LEN]) == h && At(file, HEADER_LEN, rest)
  {
    hide EncodeHeader, DecodeHeader;
    HeaderRoundTrip(h);
    assert file[..HEADER_LEN] == EncodeHeader(h);
  }

  /** The file begins with the header, and behind it and its additional bytes come these bytes. */
  ghost predicate Headed(file: seq<byte>, f: Format, rest: seq<byte>) {
    && |file| >= HEADER_LEN && DecodeHeader(file[..HEADER_LEN]) == f.h && At(file, HEADER_LEN + |f.extra|, rest)
  }

  lemma HeadedIs(file: seq<byte>, f: Format, rest: seq<byte>)
    requires file == EncodeHeader(f.h) + f.extra + rest
    ensures Headed(file, f, rest)
  {
    assert file == EncodeHeader(f.h) + (f.extra + rest);
    HeaderInFile(file, f.h, f.extra + rest);
    hide EncodeHeader, DecodeHeader, At;
    AtParts(file, HEADER_LEN, f.extra, rest);
  }

  lemma NothingRead(f: Format)
    requires f.h.blkSz > 0
    ensures Reached(f, [], []) == Reading(HEADER_LEN + |f.extra|, [], 0, 0, 0) && Front(f, []) == HEADER_LEN + |f.extra|
    ensures Divides(f.h.blkSz, Size([], f.h.blkSz)) && Pending([], ExpandAll([], f.h.blkSz))
  {
    DividesMultiple(f.h.blkSz, 0);
    Crc32.CrcEmpty(0);
  }

  /** The three ends behind the last chunk. */
  lemma FinishCases(h: Header, r: Reading, e: seq<byte>)
    requires Pending(r.out, e) && r.blocks * h.blkSz == |e| && h.blkSz > 0
    ensures var o, blocks, sum := AfterChunks(h, Next(r)), h.totalBlks, r.crc as int;
            && (blocks * h.blkSz != |e| ==> o == Rejected(WrongBlockCount))
            && (blocks * h.blkSz == |e| && h.checksum != sum ==> o == Rejected(WrongChecksum))
            && (blocks * h.blkSz == |e| && h.checksum == sum ==> o == Image(e))
  {
    MulGap(h.totalBlks, r.blocks, h.blkSz);
    MulGap(r.blocks, h.totalBlks, h.blkSz);
  }

  lemma BlocksExact(n: nat, bs: nat)
    requires bs > 0 && Divides(bs, n) && Div(n, bs) < TWO32
    ensures Blocks(n, bs) * bs == n
  {
    DivBounds(n, bs);
    hide Divides, Div;
    assert Blocks(n, bs) == Div(n, bs);
  }

  lemma ReachedFields(f: Format, cs: seq<Chunk>, out: seq<byte>)
    requires f.h.blkSz > 0
    ensures var e, r := ExpandAll(cs, f.h.blkSz), Reached(f, cs, out);
            r.blocks == Blocks(|e|, f.h.blkSz) && r.crc as int == Crc32.Checksum(e) && r.out == out
  {
    hide Crc32.Crc, ExpandAll, Blocks;
  }

  lemma ReadFileStart(file: seq<byte>, f: Format, rest: seq<byte>)
    requires Headed(file, f, rest) && Ours(f) && f.h.magic == 0xed26ff3a && f.h.major == 1 && f.h.blkSz > 0
    ensures ReadFile(file) == AfterChunks(f.h, ReadChunks(file, f.h, Reached(f, [], []), f.h.totalChunks))
  {
    NothingRead(f);
    hide DecodeHeader, ReadChunks, AfterChunks, IsPow2, Reached, At;
  }

  lemma HeadedAt(file: seq<byte>, f: Format, rest: seq<byte>)
    requires Headed(file, f, rest) && f.h.blkSz > 0
    ensures At(file, Front(f, []), rest)
  {
    NothingRead(f);
    hide DecodeHeader, At, Front;
  }

  lemma WideFileIs(f: Format, cs: seq<Chunk>)
    requires f.h.blkSz > 0
    ensures WideFile(f, cs) == EncodeHeader(f.h) + f.extra + WideAll(cs, f.h.blkSz, f.pad)
  {}

  /** What the reader makes of chunks that are whole, whatever the header promises about them: the image comes back exactly
      when the header has its block count and its checksum, and otherwise the reader names the first that is wrong. Headers
      longer than this version knows make no difference. */
  lemma {:induction false} Verdict(f: Format, cs: seq<Chunk>, e: seq<byte>)
    requires f.h.magic == 0xed26ff3a && f.h.major == 1 && f.h.totalChunks == |cs| && f.h.blkSz > 0 && Ours(f)
    requires AllFit(cs, f.h.blkSz) && ExpandAll(cs, f.h.blkSz) == e
    requires Divides(f.h.blkSz, |e|) && Div(|e|, f.h.blkSz) < 0x1_0000_0000
    ensures ReadFile(WideFile(f, cs)) == Image(e) <==> f.h.totalBlks * f.h.blkSz == |e| && f.h.checksum == Crc32.Checksum(e)
    ensures f.h.totalBlks * f.h.blkSz != |e| ==> ReadFile(WideFile(f, cs)) == Rejected(WrongBlockCount)
    ensures f.h.totalBlks * f.h.blkSz == |e| && f.h.checksum != Crc32.Checksum(e) ==>
              ReadFile(WideFile(f, cs)) == Rejected(WrongChecksum)
  {
    assert [] + cs == cs && TWO32 == 0x1_0000_0000;
    hide *;
    var file, bs := WideFile(f, cs), f.h.blkSz;
    var out := OutAfter([], cs, bs, []);
    WideFileIs(f, cs);
    HeadedIs(file, f, WideAll(cs, bs, f.pad));
    HeadedAt(file, f, WideAll(cs, bs, f.pad));
    NothingRead(f);
    ReadFileStart(file, f, WideAll(cs, bs, f.pad));
    ReadRest(file, f, [], cs, []);
    OutIsPending([], cs, bs, []);
    ReachedFields(f, cs, out);
    BlocksExact(|e|, bs);
    FinishCases(f.h, Reached(f, cs, out), e);
  }

  // ----- the files of the writer -----

  /** The header of a file of n chunks that make up e, with this checksum. */
  function FormatFor(n: u32, bs: u32, e: seq<byte>, sum: u32): Format
    requires bs > 0
  {
    Format(FileHeader(bs, |e|, n, sum), [], [])
  }

  lemma FormatFields(cs: seq<Chunk>, bs: u32, e: seq<byte>, sum: u32)
    requires bs > 0 && IsPow2(bs) && Divides(bs, |e|) && Div(|e|, bs) < TWO32 && |cs| < TWO32
    ensures var f := FormatFor(|cs|, bs, e, sum);
            && f.h.magic == 0xed26ff3a && f.h.major == 1 && f.h.blkSz == bs && f.h.totalChunks == |cs| && Ours(f)
            && f.h.totalBlks * bs == |e| && f.h.checksum == sum && WideFile(f, cs) == SparseFile(cs, bs, |e|, sum)
  {
    BlocksExact(|e|, bs);
    PlainFile(cs, bs, e, sum);
    hide Div, Divides, IsPow2, WideFile, SparseFile;
  }

  lemma PlainFile(cs: seq<Chunk>, bs: u32, e: seq<byte>, sum: u32)
    requires bs > 0 && |cs| < TWO32
    ensures WideFile(FormatFor(|cs|, bs, e, sum), cs) == SparseFile(cs, bs, |e|, sum)
  {
    var f := FormatFor(|cs|, bs, e, sum);
    PlainFormat(cs, bs, e, sum);
    hide *;
    PlainAll(cs, bs);
    WideFileIs(f, cs);
  }

  lemma PlainFormat(cs: seq<Chunk>, bs: u32, e: seq<byte>, sum: u32)
    requires bs > 0 && |cs| < TWO32
    ensures var f := FormatFor(|cs|, bs, e, sum);
            && f.pad == [] && f.h.blkSz == bs
            && SparseFile(cs, bs, |e|, sum) == EncodeHeader(f.h) + f.extra + EncodeAll(cs, bs)
  {
    assert |cs| % TWO32 == |cs|;
    hide Div, EncodeHeader, EncodeAll;
    var s := EncodeHeader(FormatFor(|cs|, bs, e, sum).h);
    assert s + [] == s;
  }

  /** A file of the writer with any checksum in its header: the image comes back exactly when it is the right one. */
  lemma {:induction false} OtherChecksum(cs: seq<Chunk>, bs: u32, e: seq<byte>, sum: u32)
    requires bs > 0 && IsPow2(bs) && |cs| < TWO32 && AllFit(cs, bs)
    requires ExpandAll(cs, bs) == e && Divides(bs, |e|) && Div(|e|, bs) < TWO32
    ensures ReadFile(SparseFile(cs, bs, |e|, sum)) == Image(e) <==> sum == Crc32.Checksum(e)
    ensures sum != Crc32.Checksum(e) ==> ReadFile(SparseFile(cs, bs, |e|, sum)) == Rejected(WrongChecksum)
  {
    assert TWO32 == 0x1_0000_0000;
    hide *;
    FormatFields(cs, bs, e, sum);
    Verdict(FormatFor(|cs|, bs, e, sum), cs, e);
  }

  /** What the writer leaves for chunks that make up e comes back from the reader as exactly e: no check fails,
      and both loops over a skipped region end. */
  lemma {:induction false} RoundTrip(cs: seq<Chunk>, bs: u32, e: seq<byte>)
    requires bs > 0 && IsPow2(bs) && |cs| < TWO32 && AllFit(cs, bs)
    requires ExpandAll(cs, bs) == e && Divides(bs, |e|) && Div(|e|, bs) < TWO32
    ensures ReadFile(SparseFile(cs, bs, |e|, Crc32.Checksum(e))) == Image(e)
  {
    hide *;
    OtherChecksum(cs, bs, e, Crc32.Checksum(e));
  }

  /** A file whose data were changed within four bytes behind the back of its checksum is rejected. */
  lemma {:induction false} BurstRejected(cs: seq<Chunk>, bs: u32, a: seq<byte>, w: seq<byte>, v: seq<byte>, b: seq<byte>)
    requires bs > 0 && IsPow2(bs) && |cs| < TWO32 && AllFit(cs, bs) && |w| == |v| == 4 && w != v
    requires ExpandAll(cs, bs) == a + v + b && Divides(bs, |a + v + b|) && Div(|a + v + b|, bs) < TWO32
    ensures ReadFile(SparseFile(cs, bs, |a + v + b|, Crc32.Checksum(a + w + b))) == Rejected(WrongChecksum)
  {
    hide *;
    Crc32Residue.BurstDetected(a, w, v, b);
    OtherChecksum(cs, bs, a + v + b, Crc32.Checksum(a + w + b));
  }

  // ----- a wrong size field -----

  lemma {:induction false} ChunksStop(file: seq<byte>, h: Header, r: Reading, n: nat, r': Reading, o: Outcome, m: nat)
    requires ReadChunks(file, h, r, n) == Next(r') && ReadChunk(file, h, r') == Stop(o) && m > n
    ensures ReadChunks(file, h, r, m) == Stop(o)
    decreases n
  {
    hide ReadChunk;
    if n > 0 {
      ChunksStop(file, h, ReadChunk(file, h, r).r, n - 1, r', o, m - 1);
    }
  }

  /** The verdict on a chunk with this size field. */
  lemma {:induction false} SizeChecked(file: seq<byte>, f: Format, c: Chunk, r: Reading, size: u32)
    requires f.h.blkSz > 0 && Ours(f) && Fits(c, f.h.blkSz) && At(file, r.pos, SizedChunk(c, f.h.blkSz, f.pad, size))
    requires size != SizeOf(c, f.pad)
    ensures ReadChunk(file, f.h, r) == Stop(Rejected(if c.Raw? then BogusRawSize else BogusSkipSize))
  {
    hide *;
    ReadHeader(file, f, c, r, size);
    if c.Raw? {
      RawHeader(f, c, size);
      RawFields(f.h, HeaderOf(c, f.h.blkSz, size), |c.data|);
      RawStep(file, f.h, HeaderOf(c, f.h.blkSz, size), Behind(r, f.pad), c.data);
    } else {
      SkipHeader(f, c, size);
      SkipStep(f.h, HeaderOf(c, f.h.blkSz, size), Behind(r, f.pad));
    }
  }

  lemma {:induction false} WideAppend(a: seq<Chunk>, b: seq<Chunk>, bs: nat, pad: seq<byte>)
    requires bs > 0
    ensures WideAll(a + b, bs, pad) == WideAll(a, bs, pad) + WideAll(b, bs, pad)
    decreases |b|
  {
    hide WideChunk;
    if b == [] {
      assert a + b == a;
    } else {
      var most, last := b[..|b| - 1], b[|b| - 1];
      assert a + b == (a + most) + [last] && b == most + [last];
      WideAppend(a, most, bs, pad);
      WideSnoc(a + most, last, bs, pad);
      WideSnoc(most, last, bs, pad);
    }
  }

  /** A file of the chunks a, c and b, with this size in the header of c. */
  function SizedFile(f: Format, a: seq<Chunk>, c: Chunk, b: seq<Chunk>, size: u32): seq<byte>
    requires f.h.blkSz > 0
  {
    var bs := f.h.blkSz;
    EncodeHeader(f.h) + f.extra
    + (WideAll(a, bs, f.pad) + (SizedChunk(c, bs, f.pad, size) + WideAll(b, bs, f.pad)))
  }

  lemma {:induction false} RightSize(f: Format, a: seq<Chunk>, c: Chunk, b: seq<Chunk>)
    requires f.h.blkSz > 0
    ensures SizedFile(f, a, c, b, SizeOf(c, f.pad)) == WideFile(f, a + [c] + b)
  {
    hide *;
    var bs: nat := f.h.blkSz;
    WideSnoc(a, c, bs, f.pad);
    WideAppend(a + [c], b, bs, f.pad);
    WideIs(c, bs, f.pad);
    WideFileIs(f, a + [c] + b);
    SizedBytes(f, a, c, b, SizeOf(c, f.pad));
    Regroup(WideAll(a, bs, f.pad), WideChunk(c, bs, f.pad), WideAll(b, bs, f.pad));
  }

  lemma Regroup(a: seq<byte>, b: seq<byte>, c: seq<byte>)
    ensures a + (b + c) == a + b + c
  {}

  lemma SizedBytes(f: Format, a: seq<Chunk>, c: Chunk, b: seq<Chunk>, size: u32)
    requires f.h.blkSz > 0
    ensures SizedFile(f, a, c, b, size)
         == EncodeHeader(f.h) + f.extra
            + (WideAll(a, f.h.blkSz, f.pad) + (SizedChunk(c, f.h.blkSz, f.pad, size) + WideAll(b, f.h.blkSz, f.pad)))
  {
    hide EncodeHeader, WideAll, SizedChunk;
  }

  lemma FitsParts(a: seq<Chunk>, c: Chunk, b: seq<Chunk>, bs: nat)
    requires bs > 0 && AllFit(a + [c] + b, bs)
    ensures AllFit(a, bs) && Fits(c, bs)
  {
    assert c in a + [c] + b;
    hide Fits;
  }

  lemma SizedFileIs(f: Format, a: seq<Chunk>, c: Chunk, b: seq<Chunk>, size: u32)
    requires f.h.blkSz > 0
    ensures Headed(SizedFile(f, a, c, b, size), f,
                   WideAll(a, f.h.blkSz, f.pad) + (SizedChunk(c, f.h.blkSz, f.pad, size) + WideAll(b, f.h.blkSz, f.pad)))
  {
    hide *;
    SizedBytes(f, a, c, b, size);
    HeadedIs(SizedFile(f, a, c, b, size), f,
             WideAll(a, f.h.blkSz, f.pad) + (SizedChunk(c, f.h.blkSz, f.pad, size) + WideAll(b, f.h.blkSz, f.pad)));
  }

  lemma {:induction false} WrongSize(f: Format, a: seq<Chunk>, c: Chunk, b: seq<Chunk>, size: u32)
    requires f.h.magic == 0xed26ff3a && f.h.major == 1 && f.h.totalChunks == |a| + 1 + |b| && f.h.blkSz > 0 && Ours(f)
    requires AllFit(a + [c] + b, f.h.blkSz) && size != SizeOf(c, f.pad)
    ensures ReadFile(SizedFile(f, a, c, b, size)) == Rejected(if c.Raw? then BogusRawSize else BogusSkipSize)
  {
    hide *;
    var file, bs := SizedFile(f, a, c, b, size), f.h.blkSz;
    var rest := SizedChunk(c, bs, f.pad, size) + WideAll(b, bs, f.pad);
    FitsParts(a, c, b, bs);
    SizedFileIs(f, a, c, b, size);
    HeadedAt(file, f, WideAll(a, bs, f.pad) + rest);
    AtParts(file, Front(f, []), WideAll(a, bs, f.pad), rest);
    NothingRead(f);
    ReadFileStart(file, f, WideAll(a, bs, f.pad) + rest);
    assert [] + a == a;
    ReadRest(file, f, [], a, []);
    var r := Reached(f, a, OutAfter([], a, bs, []));
    AtParts(file, Front(f, a), SizedChunk(c, bs, f.pad, size), WideAll(b, bs, f.pad));
    ReachedPos(f, a, OutAfter([], a, bs, []));
    SizeChecked(file, f, c, r, size);
    var o := Rejected(if c.Raw? then BogusRawSize else BogusSkipSize);
    ChunksStop(file, f.h, Reached(f, [], []), |a|, r, o, f.h.totalChunks);
    StoppedThere(f.h, o);
  }

  lemma StoppedThere(h: Header, o: Outcome)
    ensures AfterChunks(h, Stop(o)) == o
  {}

  lemma SizeIs(f: Format, c: Chunk)
    requires f.h.blkSz > 0 && Ours(f) && Fits(c, f.h.blkSz)
    ensures c.Raw? ==> SizeOf(c, f.pad) == (f.h.chunkHdrSz + |c.data|) % 0x1_0000_0000
    ensures c.Skip? ==> SizeOf(c, f.pad) == f.h.chunkHdrSz
  {
    hide *;
    if c.Raw? {
      RawHeader(f, c, 0);
    } else {
      SkipHeader(f, c, 0);
    }
  }

  /** The size field of any chunk: the image comes back exactly when the field is the length of the header and, for a raw
      chunk, of the data behind it. */
  lemma {:induction false} SizeField(f: Format, a: seq<Chunk>, c: Chunk, b: seq<Chunk>, e: seq<byte>, size: u32)
    requires f.h.magic == 0xed26ff3a && f.h.major == 1 && f.h.totalChunks == |a| + 1 + |b| && f.h.blkSz > 0 && Ours(f)
    requires AllFit(a + [c] + b, f.h.blkSz) && ExpandAll(a + [c] + b, f.h.blkSz) == e
    requires Divides(f.h.blkSz, |e|) && Div(|e|, f.h.blkSz) < 0x1_0000_0000
    requires f.h.totalBlks * f.h.blkSz == |e| && f.h.checksum == Crc32.Checksum(e)
    ensures c.Raw? ==>
              && (ReadFile(SizedFile(f, a, c, b, size)) == Image(e) <==> size == (f.h.chunkHdrSz + |c.data|) % 0x1_0000_0000)
              && (size != (f.h.chunkHdrSz + |c.data|) % 0x1_0000_0000 ==>
                    ReadFile(SizedFile(f, a, c, b, size)) == Rejected(BogusRawSize))
    ensures c.Skip? ==>
              && (ReadFile(SizedFile(f, a, c, b, size)) == Image(e) <==> size == f.h.chunkHdrSz)
              && (size != f.h.chunkHdrSz ==> ReadFile(SizedFile(f, a, c, b, size)) == Rejected(BogusSkipSize))
  {
    hide *;
    FitsParts(a, c, b, f.h.blkSz);
    SizeIs(f, c);
    if size == SizeOf(c, f.pad) {
      RightSize(f, a, c, b);
      Verdict(f, a + [c] + b, e);
    } else {
      WrongSize(f, a, c, b, size);
    }
  }

  // ----- files that are cut off -----

  /** What is left of the file begins the chunks that are to come, and does not hold them all. */
  ghost predicate CutAt(file: seq<byte>, pos: nat, e: seq<byte>) {
    pos <= |file| < pos + |e| && file[pos..] == e[..|file| - pos]
  }

  lemma CutParts(file: seq<byte>, pos: nat, a: seq<byte>, b: seq<byte>)
    requires CutAt(file, pos, a + b)
    ensures |file| < pos + |a| ==> CutAt(file, pos, a)
    ensures |file| >= pos + |a| ==> At(file, pos, a) && CutAt(file, pos + |a|, b)
  {
    var e, n := a + b, |file| - pos;
    if n < |a| {
      assert e[..n] == a[..n];
    } else {
      assert file[pos..][..|a|] == e[..n][..|a|] == a;
      assert file[pos..][|a|..] == e[..n][|a|..] == b[..n - |a|];
    }
  }

  lemma NothingCut(file: seq<byte>, pos: nat, e: seq<byte>)
    requires CutAt(file, pos, e)
    ensures e != [] && pos <= |file|
  {}

  lemma HeaderCut(file: seq<byte>, h: Header, r: Reading, e: seq<byte>)
    requires CutAt(file, r.pos, e) && |e| <= CHUNK_HEADER_LEN
    ensures ReadChunk(file, h, r) == Stop(Rejected(NoChunkHeader))
  {}

  lemma BodyCut(file: seq<byte>, pos: nat, e: seq<byte>)
    requires CutAt(file, pos, e)
    ensures pos + |e| > |file|
  {}

  lemma CutHeader(file: seq<byte>, f: Format, c: Chunk, r: Reading)
    requires f.h.blkSz > 0 && Ours(f) && f.pad == [] && Fits(c, f.h.blkSz) && c.Raw?
    requires At(file, r.pos, EncodeChunkHeader(HeaderOf(c, f.h.blkSz, SizeOf(c, f.pad))))
    requires CutAt(file, r.pos + CHUNK_HEADER_LEN, c.data)
    ensures ReadChunk(file, f.h, r) == Stop(Rejected(ShortRawChunk))
  {
    hide *;
    var size := SizeOf(c, f.pad);
    var hd := HeaderOf(c, f.h.blkSz, size);
    SizedIs(c, f.h.blkSz, f.pad, size);
    AtIs(file, r.pos, EncodeChunkHeader(hd));
    ChunkHeaderRoundTrip(hd);
    ReadChunkIs(file, f, r, c, hd, size);
    RawHeader(f, c, size);
    RawFields(f.h, hd, |c.data|);
    BehindFields(r, f.pad);
    NothingCut(file, r.pos + CHUNK_HEADER_LEN, c.data);
    BodyCut(file, r.pos + CHUNK_HEADER_LEN, c.data);
    RawStep(file, f.h, hd, Behind(r, f.pad), c.data);
  }

  /** A chunk of which a part is missing. */
  lemma {:induction false} ChunkCut(file: seq<byte>, f: Format, c: Chunk, r: Reading)
    requires f.h.blkSz > 0 && Ours(f) && f.pad == [] && Fits(c, f.h.blkSz)
    requires CutAt(file, r.pos, WideChunk(c, f.h.blkSz, f.pad))
    ensures ReadChunk(file, f.h, r) in {Stop(Rejected(NoChunkHeader)), Stop(Rejected(ShortRawChunk))}
  {
    hide *;
    var size := SizeOf(c, f.pad);
    var hd := EncodeChunkHeader(HeaderOf(c, f.h.blkSz, size));
    WideIs(c, f.h.blkSz, f.pad);
    SizedIs(c, f.h.blkSz, f.pad, size);
    BodyIs(c);
    assert [] + Body(c) == Body(c);
    CutParts(file, r.pos, hd, Body(c));
    if |file| < r.pos + |hd| {
      HeaderCut(file, f.h, r, hd);
    } else {
      NothingCut(file, r.pos + |hd|, Body(c));
      CutHeader(file, f, c, r);
    }
  }

  lemma BodyIs(c: Chunk)
    ensures c.Raw? ==> Body(c) == c.data
    ensures c.Skip? ==> Body(c) == []
  {}

  lemma {:induction false} RestCut(file: seq<byte>, f: Format, done: seq<Chunk>, rest: seq<Chunk>, out: seq<byte>)
    requires f.h.blkSz > 0 && Ours(f) && f.pad == [] && AllFit(rest, f.h.blkSz) && Divides(f.h.blkSz, Size(done, f.h.blkSz))
    requires CutAt(file, Front(f, done), WideAll(rest, f.h.blkSz, f.pad))
    ensures ReadChunks(file, f.h, Reached(f, done, out), |rest|)
         in {Stop(Rejected(NoChunkHeader)), Stop(Rejected(ShortRawChunk))}
    decreases |rest|
  {
    hide *;
    var bs := f.h.blkSz;
    FirstAndRest(done, rest);
    NothingCut(file, Front(f, done), WideAll(rest, bs, f.pad));
    NoChunks(bs, f.pad);
    var c, more := rest[0], rest[1..];
    FitsFirst(rest, bs);
    WideCons(c, more, bs, f.pad);
    CutParts(file, Front(f, done), WideChunk(c, bs, f.pad), WideAll(more, bs, f.pad));
    ReachedPos(f, done, out);
    if |file| < Front(f, done) + |WideChunk(c, bs, f.pad)| {
      ChunkCut(file, f, c, Reached(f, done, out));
      StopsFirst(file, f.h, Reached(f, done, out), |rest|);
    } else {
      DoneNext(f, done, c);
      ReadOne(file, f, done, c, out);
      RestCut(file, f, done + [c], more, OutNext(done, c, bs, out));
      ReadChunksStep(file, f.h, Reached(f, done, out), Reached(f, done + [c], OutNext(done, c, bs, out)), |more|);
    }
  }

  lemma NoChunks(bs: nat, pad: seq<byte>)
    requires bs > 0
    ensures WideAll([], bs, pad) == []
  {}

  lemma ReachedPos(f: Format, done: seq<Chunk>, out: seq<byte>)
    requires f.h.blkSz > 0
    ensures Reached(f, done, out).pos == Front(f, done)
  {
    hide ExpandAll, Front, Blocks, Crc32.Crc;
  }

  lemma StopsFirst(file: seq<byte>, h: Header, r: Reading, n: nat)
    requires n > 0 && ReadChunk(file, h, r).Stop?
    ensures ReadChunks(file, h, r, n) == ReadChunk(file, h, r)
  {
    hide ReadChunk;
  }

  lemma HeaderKept(f: Format, file: seq<byte>, n: nat, rest: seq<byte>)
    requires file == EncodeHeader(f.h) + rest && f.extra == [] && HEADER_LEN <= n < |file|
    ensures Headed(file[..n], f, []) && CutAt(file[..n], HEADER_LEN, rest)
  {
    HeaderInFile(file, f.h, rest);
    hide EncodeHeader, DecodeHeader;
    assert file[..n][..HEADER_LEN] == file[..HEADER_LEN];
    assert file[..n][HEADER_LEN..] == rest[..n - HEADER_LEN];
    assert file[..n][HEADER_LEN..HEADER_LEN + 0] == [];
  }

  lemma ShortFile(file: seq<byte>)
    requires |file| < HEADER_LEN
    ensures ReadFile(file) == Rejected(NoHeader)
  {}

  /** No file of the writer is accepted with its end missing, wherever it is cut. */
  lemma {:induction false} CutOff(cs: seq<Chunk>, bs: u32, e: seq<byte>, sum: u32, n: nat)
    requires bs > 0 && IsPow2(bs) && |cs| < TWO32 && AllFit(cs, bs) && Divides(bs, |e|) && Div(|e|, bs) < TWO32
    requires n < |SparseFile(cs, bs, |e|, sum)|
    ensures ReadFile(SparseFile(cs, bs, |e|, sum)[..n])
         in {Rejected(NoHeader), Rejected(NoChunkHeader), Rejected(ShortRawChunk)}
    ensures n < 28 <==> ReadFile(SparseFile(cs, bs, |e|, sum)[..n]) == Rejected(NoHeader)
  {
    assert TWO32 == 0x1_0000_0000 && HEADER_LEN == 28;
    hide *;
    var f := FormatFor(|cs|, bs, e, sum);
    var file := SparseFile(cs, bs, |e|, sum)[..n];
    if n < 28 {
      ShortFile(file);
    } else {
      FormatFields(cs, bs, e, sum);
      WideFileIs(f, cs);
      NoExtra(cs, bs, e, sum);
      HeaderKept(f, SparseFile(cs, bs, |e|, sum), n, WideAll(cs, bs, f.pad));
      NothingRead(f);
      ReadFileStart(file, f, []);
      RestCut(file, f, [], cs, []);
      StoppedThere(f.h, Rejected(NoChunkHeader));
      StoppedThere(f.h, Rejected(ShortRawChunk));
    }
  }

  lemma NoExtra(cs: seq<Chunk>, bs: u32, e: seq<byte>, sum: u32)
    requires bs > 0 && |cs| < 0x1_0000_0000
    ensures var f := FormatFor(|cs|, bs, e, sum); f.extra == [] && f.pad == [] && EncodeHeader(f.h) + [] == EncodeHeader(f.h)
  {
    hide FileHeader, EncodeHeader;
  }
}
