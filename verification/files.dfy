/** Files as byte strings with a position, the part of stdio and of the seek/write calls the tools use. */
module Files {
  import opened Words

  /** The bytes [0, n) of a file: cut off, or filled up with zeros. */
  function Resize(c: seq<byte>, n: nat): (r: seq<byte>)
    ensures |r| == n
    ensures forall i :: 0 <= i < n ==> r[i] == if i < |c| then c[i] else 0
  {
    if n <= |c| then c[..n] else c + Zeros(n - |c|)
  }

  /** Writing at a position overwrites, extends, and fills a gap with zeros; writing nothing does nothing. */
  function WriteAt(c: seq<byte>, pos: nat, data: seq<byte>): (r: seq<byte>)
    ensures |r| == if data == [] || pos + |data| < |c| then |c| else pos + |data|
    ensures forall i :: 0 <= i < |r| ==>
              r[i] == if pos <= i < pos + |data| then data[i - pos] else if i < |c| then c[i] else 0
  {
    if data == [] then c
    else Resize(c, pos) + data + (if pos + |data| < |c| then c[pos + |data|..] else [])
  }

  class File {
    var content: seq<byte>
    var pos: nat

    constructor (content: seq<byte>)
      ensures this.content == content && pos == 0
    {
      this.content, pos := content, 0;
    }

    /** fread of one item of n bytes: all or nothing. */
    method Read(n: nat) returns (ok: bool, data: seq<byte>)
      modifies `pos
      ensures ok <==> old(pos) + n <= |content|
      ensures ok ==> data == content[old(pos)..old(pos) + n] && pos == old(pos) + n
    {
      if pos + n <= |content| {
        data := content[pos..pos + n];
        pos := pos + n;
        ok := true;
      } else {
        ok, data := false, [];
      }
    }

    method Write(data: seq<byte>)
      modifies this
      ensures content == WriteAt(old(content), old(pos), data) && pos == old(pos) + |data|
    {
      content := WriteAt(content, pos, data);
      pos := pos + |data|;
    }

    method Seek(p: nat)
      modifies `pos
      ensures pos == p
    {
      pos := p;
    }

    method Truncate(n: nat)
      modifies `content
      ensures content == Resize(old(content), n)
    {
      content := Resize(content, n);
    }
  }
}
