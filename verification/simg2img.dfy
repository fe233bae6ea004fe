/** The sparse image reader: every byte string is either expanded to an image or rejected with a reason. */
module Simg2Img {
  import opened Words
  import opened Files
  import opened SparseFormat
  import Crc32

  const COPY_BUF_SIZE := 0x10_0000
  const MAX_SEEK := 0x8000_0000

  datatype Reason =
    | NoHeader | BadMagic | BadVersion | NoChunkHeader | BogusRawSize | BogusSkipSize | UnknownChunk | ShortRawChunk
    | WrongBlockCount | WrongChecksum

  /** Runaway: the checksum loop of a skipped region steps over zero and its unsigned 64-bit counter wraps. What the loop
      does from there on is not modelled: with an odd step it meets zero again after some 2^64 bytes or more. */
  datatype Outcome = Image(data: seq<byte>) | Rejected(reason: Reason) | Runaway

  // ----- the program as a function of its input -----

  /** The state between two chunks: input position, output file, its position, blocks and checksum so far. */
  datatype Reading = Reading(pos: nat, out: seq<byte>, outPos: nat, blocks: u32, crc: bv32)

  datatype Step = Next(r: Reading) | Stop(o: Outcome)

  /** The distance of the last seek over len bytes, in steps of at most MAX_SEEK. */
  function LastSeek(len: nat): (s: nat)
    requires len > 0
    ensures 0 < s <= MAX_SEEK
  {
    if len > MAX_SEEK then LastSeek(len - MAX_SEEK) else len
  }

  /** The checksum loop takes steps of the last seek distance, at most a block; it reaches zero without wrapping
      when they divide len. */
  predicate SkipEnds(len: nat, blkSz: nat)
    requires len > 0 ==> blkSz > 0
  {
    len == 0 || Divides(Min(LastSeek(len), blkSz), len)
  }

  function AddBlocks(total: u32, blocks: u32): u32 {
    (total + blocks) % TWO32
  }

  /** The bytes [a, b) of a file, if it has them. */
  function Part(s: seq<byte>, a: nat, b: nat): seq<byte> {
    if a <= b <= |s| then s[a..b] else []
  }

  /** The bytes a chunk stands for. */
  function BodyLen(h: Header, c: ChunkHeader): (n: nat)
    ensures n > 0 ==> h.blkSz > 0
  {
    MulNonNegative(c.chunkSz, h.blkSz);
    c.chunkSz * h.blkSz
  }

  /** The total size of a raw chunk, in unsigned 32-bit arithmetic. */
  predicate RawSizeAgrees(h: Header, c: ChunkHeader) {
    c.totalSz == (h.chunkHdrSz + BodyLen(h, c)) % TWO32
  }

  /** A raw chunk whose header has been read. */
  function ReadRaw(file: seq<byte>, h: Header, c: ChunkHeader, r: Reading): Step {
    var n := BodyLen(h, c);
    if !RawSizeAgrees(h, c) then Stop(Rejected(BogusRawSize))
    else if n > 0 && r.pos + n > |file| then Stop(Rejected(ShortRawChunk))
    else
      var data := Part(file, r.pos, r.pos + n);
      Next(Reading(r.pos + n, WriteAt(r.out, r.outPos, data), r.outPos + n, AddBlocks(r.blocks, c.chunkSz), Crc32.Crc(r.crc, data)))
  }

  function ReadSkip(h: Header, c: ChunkHeader, r: Reading): Step {
    var n := BodyLen(h, c);
    if c.totalSz != h.chunkHdrSz then Stop(Rejected(BogusSkipSize))
    else if n > 0 && !SkipEnds(n, h.blkSz) then Stop(Runaway)
    else Next(Reading(r.pos, r.out, r.outPos + n, AddBlocks(r.blocks, c.chunkSz), Crc32.Crc(r.crc, Zeros(n))))
  }

  function ReadBody(file: seq<byte>, h: Header, c: ChunkHeader, r: Reading): Step {
    if c.chunkType == CHUNK_TYPE_RAW then ReadRaw(file, h, c, r)
    else if c.chunkType == CHUNK_TYPE_DONT_CARE then ReadSkip(h, c, r)
    else Stop(Rejected(UnknownChunk))
  }

  function HeaderSkip(h: Header): nat {
    if h.chunkHdrSz > CHUNK_HEADER_LEN then h.chunkHdrSz - CHUNK_HEADER_LEN else 0
  }

  function ReadChunk(file: seq<byte>, h: Header, r: Reading): Step {
    var p := r.pos + CHUNK_HEADER_LEN;
    if p > |file| then Stop(Rejected(NoChunkHeader))
    else ReadBody(file, h, DecodeChunkHeader(file[r.pos..p]), r.(pos := p + HeaderSkip(h)))
  }

  function ReadChunks(file: seq<byte>, h: Header, r: Reading, n: nat): Step
    decreases n
  {
    if n == 0 then Next(r)
    else
      match ReadChunk(file, h, r)
      case Next(r') => ReadChunks(file, h, r', n - 1)
      case stop => stop
  }

  function Finish(h: Header, r: Reading): Outcome {
    if h.totalBlks != r.blocks then Rejected(WrongBlockCount)
    else if h.checksum != r.crc as int then Rejected(WrongChecksum)
    else Image(Resize(r.out, r.blocks * h.blkSz))
  }

  function AfterChunks(h: Header, s: Step): Outcome {
    match s
    case Next(r) => Finish(h, r)
    case Stop(o) => o
  }

  function ReadFile(file: seq<byte>): Outcome {
    if |file| < HEADER_LEN then Rejected(NoHeader)
    else
      var h := DecodeHeader(file[..HEADER_LEN]);
      if h.magic != MAGIC then Rejected(BadMagic)
      else if h.major != 1 then Rejected(BadVersion)
      else
        var start := if h.fileHdrSz > HEADER_LEN then h.fileHdrSz else HEADER_LEN;
        AfterChunks(h, ReadChunks(file, h, Reading(start, [], 0, 0, 0), h.totalChunks))
  }

  // ----- the program -----

  /** What the output file and the checksum are once the piece [a, b) of s has been copied. */
  ghost predicate Copied(s: seq<byte>, a: nat, b: nat, out0: seq<byte>, at: nat, crc0: bv32, out: seq<byte>, crc: bv32) {
    && out == WriteAt(out0, at, Part(s, a, b))
    && crc == Crc32.Crc(crc0, Part(s, a, b))
  }

  /** One buffer full: read, added to the checksum, written. */
  method CopyBuffer(input: File, out: File, chunk: nat, crcIn: bv32,
                    ghost a: nat, ghost out0: seq<byte>, ghost at: nat, ghost crc0: bv32)
    returns (ok: bool, crc: bv32)
    requires input != out && chunk > 0 && a <= input.pos && out.pos == at + input.pos - a
    requires Copied(input.content, a, input.pos, out0, at, crc0, out.content, crcIn)
    modifies input`pos, out
    ensures ok <==> old(input.pos) + chunk <= |input.content|
    ensures ok ==> input.pos == old(input.pos) + chunk && out.pos == at + input.pos - a
    ensures ok ==> Copied(input.content, a, input.pos, out0, at, crc0, out.content, crc)
  {
    hide Crc32.Crc, WriteAt, Copied;
    var data;
    ghost var p := input.pos;
    ok, data := input.Read(chunk);
    crc := crcIn;
    if ok {
      CopiedMore(input.content, a, p, p + chunk, out0, at, crc0, out.content, crc);
      crc := Crc32.SparseCrc32(crc, data);
      out.Write(data);
    }
  }

  /** Copies a raw chunk through the copy buffer. */
  method ProcessRawChunk(input: File, out: File, n: nat, crcIn: bv32) returns (ok: bool, crc: bv32)
    requires input != out
    modifies input`pos, out
    ensures ok <==> n == 0 || old(input.pos) + n <= |input.content|
    ensures ok ==> input.pos == old(input.pos) + n && out.pos == old(out.pos) + n
    ensures ok ==> Copied(input.content, old(input.pos), old(input.pos) + n, old(out.content), old(out.pos), crcIn, out.content, crc)
  {
    var left := n;
    crc := crcIn;
    ghost var a, out0, at := input.pos, out.content, out.pos;
    NothingCopied(input.content, a, out0, at, crcIn);
    hide Copied;
    while left > 0
      invariant 0 <= left <= n && input.pos + left == a + n && out.pos == at + input.pos - a
      invariant left < n ==> input.pos <= |input.content|
      invariant Copied(input.content, a, input.pos, out0, at, crcIn, out.content, crc)
    {
      var chunk := if left > COPY_BUF_SIZE then COPY_BUF_SIZE else left;
      ok, crc := CopyBuffer(input, out, chunk, crc, a, out0, at, crcIn);
      if !ok {
        return;
      }
      left := left - chunk;
    }
    ok := true;
  }

  lemma NothingCopied(s: seq<byte>, a: nat, out: seq<byte>, at: nat, crc: bv32)
    ensures Copied(s, a, a, out, at, crc, out, crc)
  {
    Crc32.CrcEmpty(crc);
  }

  lemma CopiedMore(s: seq<byte>, a: nat, b: nat, c: nat, out0: seq<byte>, at: nat, crc0: bv32, out: seq<byte>, crc: bv32)
    requires a <= b < c <= |s| && Copied(s, a, b, out0, at, crc0, out, crc)
    ensures Copied(s, a, c, out0, at, crc0, WriteAt(out, at + b - a, s[b..c]), Crc32.Crc(crc, s[b..c]))
  {
    hide Crc32.Crc, WriteAt, Part;
    Pieces(s, a, b, c, out0, at, crc0);
  }

  /** Copying two pieces one after the other is copying them together. */
  lemma Pieces(s: seq<byte>, a: nat, b: nat, c: nat, out: seq<byte>, at: nat, crc: bv32)
    requires a <= b < c <= |s|
    ensures Crc32.Crc(Crc32.Crc(crc, Part(s, a, b)), s[b..c]) == Crc32.Crc(crc, Part(s, a, c))
    ensures WriteAt(WriteAt(out, at, Part(s, a, b)), at + b - a, s[b..c]) == WriteAt(out, at, Part(s, a, c))
  {
    hide Crc32.Crc;
    Crc32.CrcAppend(crc, s[a..b], s[b..c]);
    assert s[a..b] + s[b..c] == s[a..c];
  }

  /** Seeks over a skipped region; the last distance is where the checksum loop starts. */
  method SeekOver(out: File, len: nat) returns (skipChunk: nat)
    modifies out`pos
    ensures out.pos == old(out.pos) + len
    ensures len > 0 ==> skipChunk == LastSeek(len)
  {
    var left := len;
    skipChunk := 0;
    while left > 0
      invariant 0 <= left <= len && out.pos + left == old(out.pos) + len
      invariant left > 0 ==> LastSeek(left) == LastSeek(len)
      invariant left == 0 && len > 0 ==> skipChunk == LastSeek(len)
    {
      skipChunk := if left > MAX_SEEK then MAX_SEEK else left;
      out.Seek(out.pos + skipChunk);
      left := left - skipChunk;
    }
  }

  /** The checksum of len zeros in steps; `ends` is false when the steps do not meet zero. */
  method SkipChecksum(len: nat, step: nat, crcIn: bv32) returns (ends: bool, crc: bv32)
    requires step > 0
    ensures ends <==> Divides(step, len)
    ensures ends ==> crc == Crc32.Crc(crcIn, Zeros(len))
  {
    var left := len;
    crc := crcIn;
    NoZeros(step, crcIn);
    hide Crc32.Crc, Zeros, Divides;
    while left > 0
      invariant 0 <= left <= len && Divides(step, len - left)
      invariant crc == Crc32.Crc(crcIn, Zeros(len - left))
    {
      MoreZeros(len, left, step, crcIn);
      if left < step {
        return false, crc;
      }
      crc := Crc32.SparseCrc32(crc, Zeros(step));
      left := left - step;
    }
    ends := true;
  }

  lemma NoZeros(step: nat, crc: bv32)
    requires step > 0
    ensures Divides(step, 0) && Crc32.Crc(crc, Zeros(0)) == crc
  {
    Crc32.CrcEmpty(crc);
    assert Zeros(0) == [];
  }

  lemma SmallRemainder(left: nat, step: nat)
    requires 0 < left < step
    ensures !Divides(step, left)
  {
    ModUnique(left, step, 0, left);
  }

  lemma MoreZeros(len: nat, left: nat, step: nat, crc: bv32)
    requires 0 < left <= len && 0 < step && Divides(step, len - left)
    ensures left < step ==> !Divides(step, len)
    ensures left >= step ==> Divides(step, len - left + step)
    ensures Crc32.Crc(Crc32.Crc(crc, Zeros(len - left)), Zeros(step)) == Crc32.Crc(crc, Zeros(len - left + step))
  {
    hide Crc32.Crc, Divides;
    DividesSum(step, len - left, left);
    DividesSum(step, len - left, step);
    NoZeros(step, crc);
    DividesMultiple(step, 1);
    if left < step {
      SmallRemainder(left, step);
    }
    Crc32.CrcAppend(crc, Zeros(len - left), Zeros(step));
    ZerosAppend(len - left, step);
  }

  method ProcessSkipChunk(out: File, n: nat, blkSz: nat, crcIn: bv32) returns (ends: bool, crc: bv32)
    requires n > 0 ==> blkSz > 0
    modifies out`pos
    ensures out.pos == old(out.pos) + n
    ensures ends <==> SkipEnds(n, blkSz)
    ensures ends ==> crc == Crc32.Crc(crcIn, Zeros(n))
  {
    var skipChunk := SeekOver(out, n);
    NoZeros(1, crcIn);
    hide Crc32.Crc, Zeros, LastSeek;
    if n == 0 {
      return true, crcIn;
    }
    ends, crc := SkipChecksum(n, Min(skipChunk, blkSz), crcIn);
  }

  datatype Option<T> = None | Some(value: T)

  /** The variables of the chunk loop. */
  class Reader {
    const input: File
    const out: File
    const header: Header
    var totalBlocks: u32
    var crc32: bv32

    constructor (input: File, out: File, header: Header)
      ensures this.input == input && this.out == out && this.header == header
      ensures totalBlocks == 0 && crc32 == 0
    {
      this.input, this.out, this.header := input, out, header;
      totalBlocks, crc32 := 0, 0;
    }

    ghost function State(): Reading
      reads this, input, out
    {
      Reading(input.pos, out.content, out.pos, totalBlocks, crc32)
    }

    /** The step the loop has taken: it goes on from the present state, or it has stopped. */
    ghost function Taken(stop: Option<Outcome>): Step
      reads this, input, out
    {
      if stop == None then Next(State()) else Stop(stop.value)
    }

    method RawBody(c: ChunkHeader) returns (stop: Option<Outcome>)
      requires input != out && c.chunkType == CHUNK_TYPE_RAW
      modifies this, input`pos, out
      ensures Taken(stop) == ReadRaw(input.content, header, c, old(State()))
    {
      hide BodyLen, RawSizeAgrees, AddBlocks, Crc32.Crc, WriteAt, Part;
      if !RawSizeAgrees(header, c) {
        return Some(Rejected(BogusRawSize));
      }
      var n := BodyLen(header, c);
      var ok, crc := ProcessRawChunk(input, out, n, crc32);
      if !ok {
        return Some(Rejected(ShortRawChunk));
      }
      crc32 := crc;
      totalBlocks := AddBlocks(totalBlocks, c.chunkSz);
      stop := None;
    }

    method SkipBody(c: ChunkHeader) returns (stop: Option<Outcome>)
      requires input != out && c.chunkType == CHUNK_TYPE_DONT_CARE
      modifies this, out`pos
      ensures Taken(stop) == ReadSkip(header, c, old(State()))
    {
      if c.totalSz != header.chunkHdrSz {
        return Some(Rejected(BogusSkipSize));
      }
      hide Crc32.Crc, Zeros, SkipEnds, BodyLen, AddBlocks;
      var ends, crc := ProcessSkipChunk(out, BodyLen(header, c), header.blkSz, crc32);
      if !ends {
        return Some(Runaway);
      }
      crc32 := crc;
      totalBlocks := AddBlocks(totalBlocks, c.chunkSz);
      stop := None;
    }

    /** One round of the chunk loop. */
    method ProcessChunk() returns (stop: Option<Outcome>)
      requires input != out
      modifies this, input`pos, out
      ensures Taken(stop) == ReadChunk(input.content, header, old(State()))
    {
      hide DecodeChunkHeader, ReadRaw, ReadSkip;
      var ok, bytes := input.Read(CHUNK_HEADER_LEN);
      if !ok {
        return Some(Rejected(NoChunkHeader));
      }
      var c := DecodeChunkHeader(bytes);
      input.Seek(input.pos + HeaderSkip(header));
      if c.chunkType == CHUNK_TYPE_RAW {
        stop := RawBody(c);
      } else if c.chunkType == CHUNK_TYPE_DONT_CARE {
        stop := SkipBody(c);
      } else {
        stop := Some(Rejected(UnknownChunk));
      }
    }

    method ProcessChunks() returns (stop: Option<Outcome>)
      requires input != out
      modifies this, input`pos, out
      ensures Taken(stop) == ReadChunks(input.content, header, old(State()), header.totalChunks)
    {
      var i := 0;
      stop := None;
      hide ReadChunk;
      while i < header.totalChunks
        invariant 0 <= i <= header.totalChunks && stop == None
        invariant ReadChunks(input.content, header, State(), header.totalChunks - i)
               == ReadChunks(input.content, header, old(State()), header.totalChunks)
      {
        stop := ProcessChunk();
        if stop != None {
          return;
        }
        i := i + 1;
      }
    }
  }

  /** The checks after the loop and the final size of the output file. */
  method FinishFile(h: Header, reader: Reader) returns (o: Outcome)
    requires reader.input != reader.out
    modifies reader.out
    ensures o == Finish(h, old(reader.State()))
  {
    reader.out.Truncate(reader.totalBlocks * h.blkSz);
    if h.totalBlks != reader.totalBlocks {
      o := Rejected(WrongBlockCount);
    } else if h.checksum != reader.crc32 as int {
      o := Rejected(WrongChecksum);
    } else {
      o := Image(reader.out.content);
    }
  }

  method Simg2Img(sparse: seq<byte>) returns (o: Outcome)
    ensures o == ReadFile(sparse)
  {
    hide DecodeHeader, ReadChunks, Finish;
    var input := new File(sparse);
    var out := new File([]);
    var ok, bytes := input.Read(HEADER_LEN);
    if !ok {
      return Rejected(NoHeader);
    }
    assert bytes == sparse[..HEADER_LEN];
    var h := DecodeHeader(bytes);
    if h.magic != MAGIC {
      return Rejected(BadMagic);
    }
    if h.major != 1 {
      return Rejected(BadVersion);
    }
    if h.fileHdrSz > HEADER_LEN {
      input.Seek(input.pos + (h.fileHdrSz - HEADER_LEN));
    }
    var reader := new Reader(input, out, h);
    var stop := reader.ProcessChunks();
    if stop != None {
      return stop.value;
    }
    o := FinishFile(h, reader);
  }
}
