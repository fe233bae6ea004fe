/** The image writer: the sparse encoder with its running offset, chunk count and checksum, and the plain
    seek-and-write mode. */
module OutputFiles {
  import opened Words
  import opened Files
  import opened SparseFormat
  import Crc32

  const INT_MAX := 0x7FFF_FFFF

  /** The chunks after the bytes at `off`: a gap becomes a don't-care chunk. */
  function Place(cs: seq<Chunk>, bs: nat, off: nat, data: seq<byte>): seq<Chunk>
    requires bs > 0
  {
    Fill(cs, bs, off) + [Raw(Padded(data, bs))]
  }

  /** The chunks after skipping ahead to `off`. */
  function Fill(cs: seq<Chunk>, bs: nat, off: nat): seq<Chunk>
    requires bs > 0
  {
    if off > Size(cs, bs) then cs + [Skip(Div(off - Size(cs, bs), bs))] else cs
  }

  class OutputFile {
    const file: File
    const sparse: bool
    const blockSize: u32
    const len: nat

    var curOutPtr: nat
    var chunkCnt: nat
    var crc32: bv32
    ghost var chunks: seq<Chunk>

    /** The file is the header followed by the chunks so far; offset, count and checksum are theirs. */
    ghost predicate Valid()
      reads this, file
    {
      && IsPow2(blockSize) && blockSize > 0
      && (sparse ==>
            && Holds(chunks)
            && curOutPtr == Size(chunks, blockSize)
            && Divides(blockSize, curOutPtr)
            && chunkCnt == |chunks|
            && crc32 == Crc32.Crc(0, ExpandAll(chunks, blockSize)))
    }

    ghost predicate Holds(cs: seq<Chunk>)
      requires blockSize > 0
      reads file
    {
      file.content == EncodeHeader(FileHeader(blockSize, len, 0, 0)) + EncodeAll(cs, blockSize)
      && file.pos == |file.content|
    }

    constructor (blockSize: u32, len: nat, sparse: bool)
      requires IsPow2(blockSize) && blockSize > 0
      ensures Valid() && fresh(file)
      ensures this.blockSize == blockSize && this.len == len && this.sparse == sparse
      ensures chunks == [] && (!sparse ==> file.content == [])
    {
      file := new File([]);
      this.sparse, this.blockSize, this.len := sparse, blockSize, len;
      curOutPtr, chunkCnt, crc32, chunks := 0, 0, 0, [];
      new;
      if sparse {
        file.Write(EncodeHeader(FileHeader(blockSize, len, 0, 0)));
        EmptyChecksum();
      }
    }

    static lemma EmptyChecksum()
      ensures Crc32.Crc(0, []) == 0
    {
      Crc32.CrcEmpty(0);
    }

    /** Appends bytes to the file. */
    method Append(data: seq<byte>)
      requires file.pos == |file.content|
      modifies file
      ensures file.content == old(file.content) + data && file.pos == |file.content|
    {
      file.Write(data);
      assert file.content == old(file.content) + data;
    }

    /** What one more chunk does to the encoding, the size and the checksum. */
    static lemma ChunkAdded(h: seq<byte>, cs: seq<Chunk>, c: Chunk, bs: nat, crc: bv32)
      requires bs > 0 && crc == Crc32.Crc(0, ExpandAll(cs, bs))
      ensures h + EncodeAll(cs, bs) + EncodeChunk(c, bs) == h + EncodeAll(cs + [c], bs)
      ensures Size(cs + [c], bs) == Size(cs, bs) + |Expand(c, bs)|
      ensures Crc32.Crc(crc, Expand(c, bs)) == Crc32.Crc(0, ExpandAll(cs + [c], bs))
    {
      hide Crc32.Crc, Expand, EncodeChunk, ExpandAll, EncodeAll;
      EncodeSnoc(cs, c, bs);
      ExpandSnoc(cs, c, bs);
      Crc32.CrcAppend(0, ExpandAll(cs, bs), Expand(c, bs));
      assert h + EncodeAll(cs, bs) + EncodeChunk(c, bs) == h + (EncodeAll(cs, bs) + EncodeChunk(c, bs));
    }

    static lemma SkipChunk(skipLen: nat, bs: nat)
      requires bs > 0 && Divides(bs, skipLen)
      ensures EncodeChunk(Skip(Div(skipLen, bs)), bs)
           == EncodeChunkHeader(ChunkHeader(CHUNK_TYPE_DONT_CARE, 0, Div(skipLen, bs) % TWO32, CHUNK_HEADER_LEN))
      ensures Expand(Skip(Div(skipLen, bs)), bs) == Zeros(skipLen)
    {}

    method EmitSkipChunk(skipLen: nat) returns (ok: bool)
      requires Valid() && sparse
      modifies this, file
      ensures ok <==> Divides(blockSize, skipLen)
      ensures ok ==> Valid() && chunks == old(chunks) + [Skip(Div(skipLen, blockSize))]
    {
      hide Crc32.Crc, Expand, EncodeChunk, ExpandAll, EncodeAll, EncodeHeader, EncodeChunkHeader, FileHeader, Size;
      hide Div, Divides;
      if !Divides(blockSize, skipLen) {
        return false;
      }
      ghost var c := Skip(Div(skipLen, blockSize));
      SkipChunk(skipLen, blockSize);
      DividesSum(blockSize, curOutPtr, skipLen);
      ChunkAdded(EncodeHeader(FileHeader(blockSize, len, 0, 0)), chunks, c, blockSize, crc32);
      chunks := chunks + [c];
      curOutPtr := curOutPtr + skipLen;
      chunkCnt := chunkCnt + 1;
      crc32 := ZeroChecksum(crc32, skipLen);
      Append(EncodeChunkHeader(ChunkHeader(CHUNK_TYPE_DONT_CARE, 0, Div(skipLen, blockSize) % TWO32, CHUNK_HEADER_LEN)));
      ok := true;
    }

    static lemma NoZeros(crc: bv32)
      ensures crc == Crc32.Crc(crc, Zeros(0))
    {
      hide Crc32.Crc;
      Crc32.CrcEmpty(crc);
      assert Zeros(0) == [];
    }

    /** The checksum of the skipped zeros, a block at a time. */
    method ZeroChecksum(crcIn: bv32, skipLen: nat) returns (crc: bv32)
      requires blockSize > 0
      ensures crc == Crc32.Crc(crcIn, Zeros(skipLen))
    {
      var left := skipLen;
      crc := crcIn;
      NoZeros(crcIn);
      hide Crc32.Crc, Zeros;
      while left > 0
        invariant 0 <= left <= skipLen
        invariant crc == Crc32.Crc(crcIn, Zeros(skipLen - left))
      {
        var chunk := if left > blockSize then blockSize else left;
        Crc32.CrcAppend(crcIn, Zeros(skipLen - left), Zeros(chunk));
        ZerosAppend(skipLen - left, chunk);
        crc := Crc32.SparseCrc32(crc, Zeros(chunk));
        left := left - chunk;
      }
    }
  
    /** The header of a raw chunk of the rounded-up length, the data, and zeros to the end of the block. */
    static lemma RawChunk(data: seq<byte>, bs: nat)
      requires IsPow2(bs) && bs > 0 && |data| + bs <= INT_MAX
      ensures var n := RoundUp(|data|, bs);
              && n == |Padded(data, bs)| && |data| <= n < TWO32 - CHUNK_HEADER_LEN && Divides(bs, n)
              && Expand(Raw(Padded(data, bs)), bs) == data + Zeros(n - |data|)
              && EncodeChunk(Raw(Padded(data, bs)), bs)
                 == EncodeChunkHeader(ChunkHeader(CHUNK_TYPE_RAW, 0, Div(n, bs) % TWO32, CHUNK_HEADER_LEN + n))
                    + (data + Zeros(n - |data|))
    {
      RoundUpIsMultiple(|data|, bs);
      PaddedParts(data, bs);
      hide RoundUp, DivRoundUp, Divides, Padded, Expand, EncodeChunk, EncodeChunkHeader, Div;
      RawParts(Padded(data, bs), bs);
    }

    static lemma PaddedParts(data: seq<byte>, bs: nat)
      requires bs > 0
      ensures var n := DivRoundUp(|data|, bs) * bs;
              |data| <= n < |data| + bs && Divides(bs, n) && Padded(data, bs) == data + Zeros(n - |data|)
    {
      DivRoundUpBounds(|data|, bs);
      DividesMultiple(bs, DivRoundUp(|data|, bs));
      hide DivRoundUp, Divides;
    }

    static lemma RawParts(padded: seq<byte>, bs: nat)
      requires bs > 0 && |padded| < TWO32 - CHUNK_HEADER_LEN
      ensures Expand(Raw(padded), bs) == padded
      ensures EncodeChunk(Raw(padded), bs)
           == EncodeChunkHeader(ChunkHeader(CHUNK_TYPE_RAW, 0, Div(|padded|, bs) % TWO32, CHUNK_HEADER_LEN + |padded|)) + padded
    {
      hide EncodeChunkHeader, Div;
    }

    /** The second half of write_chunk_raw: the chunk itself. */
    method EmitRawChunk(data: seq<byte>)
      requires Valid() && sparse && |data| + blockSize <= INT_MAX
      modifies this, file
      ensures Valid() && chunks == old(chunks) + [Raw(Padded(data, blockSize))]
    {
      hide Crc32.Crc, Expand, EncodeChunk, ExpandAll, EncodeAll, EncodeHeader, EncodeChunkHeader, FileHeader, Size;
      hide Div, Divides, DivRoundUp, RoundUp, Zeros, Padded;
      RawChunk(data, blockSize);
      var rndUpLen := RoundUp(|data|, blockSize);
      var zeroLen := rndUpLen - |data|;
      ghost var c := Raw(Padded(data, blockSize));
      ghost var h := EncodeHeader(FileHeader(blockSize, len, 0, 0));
      var header := EncodeChunkHeader(ChunkHeader(CHUNK_TYPE_RAW, 0, Div(rndUpLen, blockSize) % TWO32, CHUNK_HEADER_LEN + rndUpLen));
      ChunkAdded(h, chunks, c, blockSize, crc32);
      DividesSum(blockSize, curOutPtr, rndUpLen);
      Crc32.CrcAppend(crc32, data, Zeros(zeroLen));
      Joined(h + EncodeAll(chunks, blockSize), header, data, Zeros(zeroLen));
      crc32 := Crc32.SparseCrc32(crc32, data);
      if zeroLen > 0 {
        crc32 := Crc32.SparseCrc32(crc32, Zeros(zeroLen));
      } else {
        Crc32.CrcEmpty(crc32);
      }
      chunks := chunks + [c];
      curOutPtr := curOutPtr + rndUpLen;
      chunkCnt := chunkCnt + 1;
      Append(header);
      Append(data);
      if zeroLen > 0 {
        Append(Zeros(zeroLen));
      }
    }

    static lemma Joined(f: seq<byte>, a: seq<byte>, b: seq<byte>, z: seq<byte>)
      ensures f + a + b + z == f + (a + (b + z))
      ensures z == [] ==> f + a + b == f + (a + (b + z)) && b + z == b
    {}
  
    static lemma FillReaches(cs: seq<Chunk>, bs: nat, off: nat)
      requires bs > 0 && off >= Size(cs, bs) && Divides(bs, Size(cs, bs))
      ensures Divides(bs, off) <==> Divides(bs, off - Size(cs, bs))
      ensures Divides(bs, off) ==> Size(Fill(cs, bs, off), bs) == off
    {
      DivBounds(off - Size(cs, bs), bs);
      hide ExpandAll, Div, Divides;
      DividesSum(bs, Size(cs, bs), off - Size(cs, bs));
      ExpandSnoc(cs, Skip(Div(off - Size(cs, bs), bs)), bs);
    }

    static lemma FillGap(cs: seq<Chunk>, bs: nat, off: nat)
      requires bs > 0
      ensures Fill(cs, bs, off) == if off > Size(cs, bs) then cs + [Skip(Div(off - Size(cs, bs), bs))] else cs
    {}

    lemma OutputPointer()
      requires Valid() && sparse
      ensures blockSize > 0 && curOutPtr == Size(chunks, blockSize) && Divides(blockSize, curOutPtr)
    {
      hide Size, Divides, EncodeAll, ExpandAll, FileHeader, EncodeHeader;
    }

    /** Skips the gap in front of a block-aligned offset. */
    method SkipTo(off: nat) returns (ok: bool)
      requires Valid() && sparse && off >= curOutPtr
      modifies this, file
      ensures ok <==> Divides(blockSize, off)
      ensures ok ==> Valid() && chunks == Fill(old(chunks), blockSize, off) && curOutPtr == off
    {
      hide *;
      OutputPointer();
      FillReaches(chunks, blockSize, off);
      FillGap(chunks, blockSize, off);
      if off > curOutPtr {
        ok := EmitSkipChunk(off - curOutPtr);
        if ok {
          OutputPointer();
        }
      } else {
        ok := true;
      }
    }

    /** Accepts exactly the block-aligned offsets that are not behind the output pointer. */
    method WriteChunkRaw(off: nat, data: seq<byte>) returns (ok: bool)
      requires Valid() && sparse && |data| + blockSize <= INT_MAX
      modifies this, file
      ensures ok <==> off >= old(curOutPtr) && Divides(blockSize, off)
      ensures ok ==> Valid() && chunks == Place(old(chunks), blockSize, off, data)
    {
      hide Crc32.Crc, ExpandAll, EncodeAll, EncodeHeader, FileHeader, Size, Div, Divides, Fill, Padded;
      if off < curOutPtr {
        return false;
      }
      ok := SkipTo(off);
      if ok {
        EmitRawChunk(data);
      }
    }

    /** Fills the image up to its length; in plain mode writes one zero byte at the end. */
    method PadOutputFile(padLen: nat) returns (ok: bool)
      requires Valid() && padLen > 0
      modifies this, file
      ensures sparse ==> (ok <==> old(curOutPtr) <= padLen <= len && Divides(blockSize, padLen))
      ensures sparse && ok ==> Valid() && chunks == Fill(old(chunks), blockSize, padLen)
      ensures !sparse ==> (ok <==> padLen <= len)
      ensures !sparse && ok ==> Valid() && file.content == WriteAt(old(file.content), padLen - 1, [0])
    {
      if padLen > len {
        return false;
      }
      hide Crc32.Crc, ExpandAll, EncodeAll, EncodeHeader, FileHeader, Size, Div, Divides, Fill, WriteAt;
      if sparse {
        if padLen < curOutPtr {
          return false;
        }
        ok := SkipTo(padLen);
      } else {
        file.Seek(padLen - 1);
        file.Write([0]);
        ok := true;
      }
    }

    /** Whether the writer takes data at off: inside the image, and in sparse mode aligned and not behind. */
    ghost predicate Takes(off: nat, n: nat)
      requires Valid()
      reads this, file
    {
      off + n <= len && (sparse ==> off >= curOutPtr && Divides(blockSize, off))
    }

    /** The state after data has been put at off. */
    method PutData(off: nat, data: seq<byte>) returns (ok: bool)
      requires Valid() && |data| + blockSize <= INT_MAX && off + |data| <= len
      modifies this, file
      ensures ok <==> old(Takes(off, |data|))
      ensures ok ==> Valid()
      ensures ok && sparse ==> chunks == Place(old(chunks), blockSize, off, data)
      ensures ok && !sparse ==> file.content == WriteAt(old(file.content), off, data)
    {
      hide Crc32.Crc, ExpandAll, EncodeAll, EncodeHeader, FileHeader, Size, Div, Divides, Place, WriteAt;
      if sparse {
        ok := WriteChunkRaw(off, data);
      } else {
        file.Seek(off);
        file.Write(data);
        ok := true;
      }
    }

    method WriteDataBlock(off: nat, data: seq<byte>) returns (ok: bool)
      requires Valid() && |data| + blockSize <= INT_MAX
      modifies this, file
      ensures ok <==> old(Takes(off, |data|))
      ensures ok ==> Valid()
      ensures ok && sparse ==> chunks == Place(old(chunks), blockSize, off, data)
      ensures ok && !sparse ==> file.content == WriteAt(old(file.content), off, data)
    {
      if off + |data| > len {
        return false;
      }
      ok := PutData(off, data);
    }

    /** The same for bytes of a file on disk, except that a chunk may not end at the very end of the image. */
    method WriteDataFile(off: nat, contents: seq<byte>, offset: nat, n: nat) returns (ok: bool)
      requires Valid() && n + blockSize <= INT_MAX && offset + n <= |contents|
      modifies this, file
      ensures ok <==> old(Takes(off, n)) && off + n != len
      ensures ok ==> Valid()
      ensures ok && sparse ==> chunks == Place(old(chunks), blockSize, off, contents[offset..offset + n])
      ensures ok && !sparse ==> file.content == WriteAt(old(file.content), off, contents[offset..offset + n])
    {
      if off + n >= len {
        return false;
      }
      ok := PutData(off, contents[offset..offset + n]);
    }

    /** Rewrites the header in place with the chunk count and the checksum. */
    method CloseOutputFile()
      requires Valid()
      modifies file
      ensures sparse ==> file.content == SparseFile(chunks, blockSize, len, crc32 as int)
      ensures !sparse ==> file.content == old(file.content)
    {
      if sparse {
        ghost var body := EncodeAll(chunks, blockSize);
        hide EncodeAll, EncodeHeader, FileHeader;
        var header := EncodeHeader(FileHeader(blockSize, len, chunkCnt % TWO32, crc32 as int));
        ghost var before := file.content;
        file.Seek(0);
        file.Write(header);
        assert file.content == header + before[HEADER_LEN..];
        assert before[HEADER_LEN..] == body;
      }
    }
  }
}
