/** The sparse image format: file header, chunk headers, and what a list of chunks stands for. */
module SparseFormat {
  import opened Words

  const MAGIC := 0xed26ff3a
  const CHUNK_TYPE_RAW := 0xCAC1
  const CHUNK_TYPE_DONT_CARE := 0xCAC3
  const HEADER_LEN := 28
  const CHUNK_HEADER_LEN := 12

  datatype Header = Header(magic: u32, major: u16, minor: u16, fileHdrSz: u16, chunkHdrSz: u16,
                           blkSz: u32, totalBlks: u32, totalChunks: u32, checksum: u32)

  datatype ChunkHeader = ChunkHeader(chunkType: u16, reserved1: u16, chunkSz: u32, totalSz: u32)

  function EncodeHeader(h: Header): (s: seq<byte>)
    ensures |s| == HEADER_LEN
  {
    Le32(h.magic) + (Le16(h.major) + Le16(h.minor)) + (Le16(h.fileHdrSz) + Le16(h.chunkHdrSz))
    + Le32(h.blkSz) + Le32(h.totalBlks) + Le32(h.totalChunks) + Le32(h.checksum)
  }

  function DecodeHeader(s: seq<byte>): Header
    requires |s| == HEADER_LEN
  {
    Header(FromLe32(s[..4]), FromLe16(s[4..6]), FromLe16(s[6..8]), FromLe16(s[8..10]), FromLe16(s[10..12]),
           FromLe32(s[12..16]), FromLe32(s[16..20]), FromLe32(s[20..24]), FromLe32(s[24..]))
  }

  function EncodeChunkHeader(h: ChunkHeader): (s: seq<byte>)
    ensures |s| == CHUNK_HEADER_LEN
  {
    (Le16(h.chunkType) + Le16(h.reserved1)) + Le32(h.chunkSz) + Le32(h.totalSz)
  }

  function DecodeChunkHeader(s: seq<byte>): ChunkHeader
    requires |s| == CHUNK_HEADER_LEN
  {
    ChunkHeader(FromLe16(s[..2]), FromLe16(s[2..4]), FromLe32(s[4..8]), FromLe32(s[8..]))
  }

  lemma HeaderRoundTrip(h: Header)
    ensures DecodeHeader(EncodeHeader(h)) == h
  {
    var s := EncodeHeader(h);
    assert s[..4] == Le32(h.magic) && s[4..6] == Le16(h.major) && s[6..8] == Le16(h.minor);
    assert s[8..10] == Le16(h.fileHdrSz) && s[10..12] == Le16(h.chunkHdrSz);
    assert s[12..16] == Le32(h.blkSz) && s[16..20] == Le32(h.totalBlks);
    assert s[20..24] == Le32(h.totalChunks) && s[24..] == Le32(h.checksum);
    hide Le16, Le32, FromLe16, FromLe32, EncodeHeader;
    Le32RoundTrip(h.magic);
    Le16RoundTrip(h.major);
    Le16RoundTrip(h.minor);
    Le16RoundTrip(h.fileHdrSz);
    Le16RoundTrip(h.chunkHdrSz);
    Le32RoundTrip(h.blkSz);
    Le32RoundTrip(h.totalBlks);
    Le32RoundTrip(h.totalChunks);
    Le32RoundTrip(h.checksum);
  }

  lemma ChunkHeaderRoundTrip(h: ChunkHeader)
    ensures DecodeChunkHeader(EncodeChunkHeader(h)) == h
  {
    var s := EncodeChunkHeader(h);
    assert s[..2] == Le16(h.chunkType) && s[2..4] == Le16(h.reserved1);
    assert s[4..8] == Le32(h.chunkSz) && s[8..] == Le32(h.totalSz);
    hide Le16, Le32, FromLe16, FromLe32, EncodeChunkHeader;
    Le16RoundTrip(h.chunkType);
    Le16RoundTrip(h.reserved1);
    Le32RoundTrip(h.chunkSz);
    Le32RoundTrip(h.totalSz);
  }

  // ----- chunks -----

  /** A chunk of the output image: raw blocks, or a number of blocks left out. */
  datatype Chunk = Raw(data: seq<byte>) | Skip(blocks: nat)

  /** The bytes a chunk stands for. */
  function Expand(c: Chunk, bs: nat): seq<byte> {
    match c
    case Raw(data) => data
    case Skip(blocks) => Zeros(blocks * bs)
  }

  function ExpandAll(cs: seq<Chunk>, bs: nat): seq<byte> {
    if cs == [] then [] else ExpandAll(cs[..|cs| - 1], bs) + Expand(cs[|cs| - 1], bs)
  }

  /** The size of the expanded chunks. */
  function Size(cs: seq<Chunk>, bs: nat): nat {
    |ExpandAll(cs, bs)|
  }

  /** A chunk in the file; its header fields are 32-bit words. */
  function EncodeChunk(c: Chunk, bs: nat): seq<byte>
    requires bs > 0
  {
    match c
    case Raw(data) =>
      EncodeChunkHeader(ChunkHeader(CHUNK_TYPE_RAW, 0, Div(|data|, bs) % TWO32, (CHUNK_HEADER_LEN + |data|) % TWO32)) + data
    case Skip(blocks) =>
      EncodeChunkHeader(ChunkHeader(CHUNK_TYPE_DONT_CARE, 0, blocks % TWO32, CHUNK_HEADER_LEN))
  }

  function EncodeAll(cs: seq<Chunk>, bs: nat): seq<byte>
    requires bs > 0
  {
    if cs == [] then [] else EncodeAll(cs[..|cs| - 1], bs) + EncodeChunk(cs[|cs| - 1], bs)
  }

  lemma ExpandSnoc(cs: seq<Chunk>, c: Chunk, bs: nat)
    ensures ExpandAll(cs + [c], bs) == ExpandAll(cs, bs) + Expand(c, bs)
    ensures Size(cs + [c], bs) == Size(cs, bs) + |Expand(c, bs)|
  {
    assert (cs + [c])[..|cs|] == cs;
  }

  lemma EncodeSnoc(cs: seq<Chunk>, c: Chunk, bs: nat)
    requires bs > 0
    ensures EncodeAll(cs + [c], bs) == EncodeAll(cs, bs) + EncodeChunk(c, bs)
  {
    assert (cs + [c])[..|cs|] == cs;
  }

  /** The header of a file of this block size and length, with the fields that are known at the end. */
  function FileHeader(bs: u32, len: nat, totalChunks: u32, checksum: u32): Header
    requires bs > 0
  {
    Header(MAGIC, 1, 0, HEADER_LEN, CHUNK_HEADER_LEN, bs, Div(len, bs) % TWO32, totalChunks, checksum)
  }

  function SparseFile(cs: seq<Chunk>, bs: u32, len: nat, checksum: u32): seq<byte>
    requires bs > 0
  {
    EncodeHeader(FileHeader(bs, len, |cs| % TWO32, checksum)) + EncodeAll(cs, bs)
  }

  // ----- the bytes of a written file -----

  lemma FixedFields()
    ensures Le32(0xed26ff3a) == [0x3a, 0xff, 0x26, 0xed] && Le16(1) == [1, 0] && Le16(0) == [0, 0]
    ensures Le16(28) == [28, 0] && Le16(12) == [12, 0] && Le32(12) == [12, 0, 0, 0]
    ensures Le16(0xCAC1) == [0xC1, 0xCA] && Le16(0xCAC3) == [0xC3, 0xCA]
  {}

  /** The file header byte by byte: magic number, version 1.0, the lengths of the two headers, then block size, blocks,
      chunks and checksum. */
  lemma HeaderBytes(cs: seq<Chunk>, bs: u32, len: nat, checksum: u32)
    requires bs > 0 && |cs| < 0x1_0000_0000 && Div(len, bs) < 0x1_0000_0000
    ensures |SparseFile(cs, bs, len, checksum)| >= 28
    ensures SparseFile(cs, bs, len, checksum)[..28]
         == [0x3a, 0xff, 0x26, 0xed, 1, 0, 0, 0, 28, 0, 12, 0]
            + Le32(bs) + Le32(Div(len, bs)) + Le32(|cs|) + Le32(checksum)
  {
    hide *;
    FrontOfFile(cs, bs, len, |cs|, checksum);
    FieldBytes(bs, Div(len, bs), |cs|, checksum);
  }

  lemma FrontOfFile(cs: seq<Chunk>, bs: u32, len: nat, chunks: u32, checksum: u32)
    requires bs > 0 && chunks == |cs| && Div(len, bs) < 0x1_0000_0000
    ensures |SparseFile(cs, bs, len, checksum)| >= 28
    ensures SparseFile(cs, bs, len, checksum)[..28]
         == EncodeHeader(Header(0xed26ff3a, 1, 0, 28, 12, bs, Div(len, bs), chunks, checksum))
  {
    assert Div(len, bs) % TWO32 == Div(len, bs) && |cs| % TWO32 == chunks;
    hide EncodeHeader, EncodeAll, Div;
  }

  lemma FieldBytes(bs: u32, blocks: u32, chunks: u32, checksum: u32)
    ensures EncodeHeader(Header(0xed26ff3a, 1, 0, 28, 12, bs, blocks, chunks, checksum))
         == [0x3a, 0xff, 0x26, 0xed, 1, 0, 0, 0, 28, 0, 12, 0] + Le32(bs) + Le32(blocks) + Le32(chunks) + Le32(checksum)
  {
    FixedFields();
    hide Le16, Le32;
  }

  /** A chunk byte by byte. */
  lemma ChunkBytes(c: Chunk, bs: nat)
    requires bs > 0 && (c.Raw? ==> |c.data| + 12 < 0x1_0000_0000 && Div(|c.data|, bs) < 0x1_0000_0000)
    requires c.Skip? ==> c.blocks < 0x1_0000_0000
    ensures c.Raw? ==>
              EncodeChunk(c, bs) == [0xC1, 0xCA, 0, 0] + Le32(Div(|c.data|, bs)) + Le32(12 + |c.data|) + c.data
    ensures c.Skip? ==> EncodeChunk(c, bs) == [0xC3, 0xCA, 0, 0] + Le32(c.blocks) + [12, 0, 0, 0]
  {
    FixedFields();
    hide Le16, Le32, Div;
    if c.Raw? {
      assert Div(|c.data|, bs) % TWO32 == Div(|c.data|, bs) && (CHUNK_HEADER_LEN + |c.data|) % TWO32 == 12 + |c.data|;
    } else {
      assert c.blocks % TWO32 == c.blocks;
    }
  }

  /** Data filled up with zeros to whole blocks. */
  function Padded(data: seq<byte>, bs: nat): (p: seq<byte>)
    requires bs > 0
    ensures Divides(bs, |p|) && |data| <= |p| < |data| + bs
  {
    var n := DivRoundUp(|data|, bs);
    DivRoundUpBounds(|data|, bs);
    DividesMultiple(bs, n);
    data + Zeros(n * bs - |data|)
  }
}
