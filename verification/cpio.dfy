/** The ramdisk archive: cpio records in the newc format, written and parsed. */
module Cpio {
  import opened Words

  /** What the list file says: a directory, a file with its contents, or a symbolic link. */
  datatype Entry =
    | Dir(name: seq<byte>, mode: nat)
    | File(name: seq<byte>, mode: nat, data: seq<byte>)
    | Link(name: seq<byte>, mode: nat, target: seq<byte>)

  const S_IFMT: nat := 0xF000
  const S_IFREG: nat := 0x8000
  const S_IFDIR: nat := 0x4000
  const S_IFLNK: nat := 0xA000

  const MAGIC: seq<byte> := [0x30, 0x37, 0x30, 0x37, 0x30, 0x31]                                  // 070701
  const TRAILER: seq<byte> := [0x54, 0x52, 0x41, 0x49, 0x4C, 0x45, 0x52, 0x21, 0x21, 0x21]        // TRAILER!!!
  const SU: seq<byte> := [0x73, 0x75]                                                             // su
  const BUSYBOX: seq<byte> := [0x62, 0x75, 0x73, 0x79, 0x62, 0x6F, 0x78]                          // busybox
  const TMP: seq<byte> := [0x2F, 0x74, 0x6D, 0x70]                                                // /tmp
  const SLASH: byte := 0x2F

  // ----- hexadecimal fields -----

  function HexDigit(d: nat): byte
    requires d < 16
  {
    if d < 10 then 0x30 + d else 0x57 + d
  }

  function Hex(n: nat, digits: nat): (s: seq<byte>)
    ensures |s| == digits
  {
    if digits == 0 then [] else Hex(n / 16, digits - 1) + [HexDigit(n % 16)]
  }

  function HexLength(n: nat): nat {
    if n < 16 then 1 else 1 + HexLength(n / 16)
  }

  /** '%08x': at least eight digits. */
  function Field(n: nat): seq<byte> {
    if n < TWO32 then Hex(n, 8) else Hex(n, HexLength(n))
  }

  function DigitValue(c: byte): int {
    if 0x30 <= c <= 0x39 then c - 0x30
    else if 0x61 <= c <= 0x66 then c - 0x57
    else if 0x41 <= c <= 0x46 then c - 0x37
    else -1
  }

  /** int(s, 16), or -1 where it raises. */
  function HexValue(s: seq<byte>): int {
    if s == [] then -1
    else
      var d, n := DigitValue(s[|s| - 1]), |s| - 1;
      if n == 0 then d
      else
        var rest := HexValue(s[..n]);
        if d < 0 || rest < 0 then -1 else 16 * rest + d
  }

  lemma DigitRoundTrip(d: nat)
    requires d < 16
    ensures DigitValue(HexDigit(d)) == d
  {}

  lemma {:induction false} LastDigit(n: nat, digits: nat)
    requires digits > 0
    ensures digits == 1 ==> HexValue(Hex(n, digits)) == n % 16
    ensures digits > 1 && HexValue(Hex(n / 16, digits - 1)) >= 0 ==>
              HexValue(Hex(n, digits)) == 16 * HexValue(Hex(n / 16, digits - 1)) + n % 16
  {
    var s := Hex(n, digits);
    assert s[..digits - 1] == Hex(n / 16, digits - 1) && s[digits - 1] == HexDigit(n % 16);
    DigitRoundTrip(n % 16);
    hide Hex, HexDigit, DigitValue;
  }

  lemma {:induction false} HexRoundTrip(n: nat, digits: nat)
    requires digits > 0 && n < Pow2(4 * digits)
    ensures HexValue(Hex(n, digits)) == n
  {
    LastDigit(n, digits);
    assert Pow2(4) == 16;
    hide Hex, HexValue;
    if digits > 1 {
      Pow2Add(4, 4 * (digits - 1));
      HexRoundTrip(n / 16, digits - 1);
    }
  }

  lemma {:induction false} FieldRoundTrip(n: nat)
    requires n < TWO32
    ensures |Field(n)| == 8 && HexValue(Field(n)) == n
  {
    Pow2Values();
    HexRoundTrip(n, 8);
    hide Hex, Pow2;
  }

  // ----- modes -----

  /** The part of a name behind its last slash. */
  function Basename(name: seq<byte>): seq<byte> {
    if name == [] || name[|name| - 1] == SLASH then []
    else Basename(name[..|name| - 1]) + [name[|name| - 1]]
  }

  /** The last part of the path `name` is `last`. */
  predicate EndsIn(name: seq<byte>, last: seq<byte>) {
    name == last || (|name| > |last| && name[|name| - |last| - 1..] == [0x2F] + last)
  }

  lemma {:induction false} BasenameIs(name: seq<byte>, last: seq<byte>)
    requires last != [] && forall i :: 0 <= i < |last| ==> last[i] != 0x2F
    ensures Basename(name) == last <==> EndsIn(name, last)
    decreases |last|
  {
    var n, m := |name| - 1, |last| - 1;
    if n >= 0 && name[n] == last[m] {
      SplitLast(name, last);
      assert last == last[..m] + [last[m]];
      assert Basename(name) == Basename(name[..n]) + [last[m]];
      assert Basename(name)[..|Basename(name)| - 1] == Basename(name[..n]);
      if m == 0 {
        NoBasename(name[..n]);
      } else {
        BasenameIs(name[..n], last[..m]);
      }
    } else if EndsIn(name, last) {
      EndsAlike(name, last);
    }
  }

  lemma EndsAlike(name: seq<byte>, last: seq<byte>)
    requires last != [] && EndsIn(name, last)
    ensures name != [] && name[|name| - 1] == last[|last| - 1]
  {
    if name != last {
      var tail := name[|name| - |last| - 1..];
      assert tail[|last|] == name[|name| - 1] && ([0x2F] + last)[|last|] == last[|last| - 1];
    }
  }

  lemma SnocEqual(a: seq<byte>, b: seq<byte>)
    requires a != [] && b != [] && a[|a| - 1] == b[|b| - 1]
    ensures a == b <==> a[..|a| - 1] == b[..|b| - 1]
  {
    assert a == a[..|a| - 1] + [a[|a| - 1]] && b == b[..|b| - 1] + [b[|b| - 1]];
  }

  lemma SplitLast(name: seq<byte>, last: seq<byte>)
    requires name != [] && last != [] && name[|name| - 1] == last[|last| - 1]
    ensures EndsIn(name, last) <==> EndsIn(name[..|name| - 1], last[..|last| - 1])
  {
    var n, m := |name| - 1, |last| - 1;
    SnocEqual(name, last);
    if n > m {
      var tail, path := name[n - m - 1..], [0x2F] + last;
      assert tail[..m + 1] == name[..n][n - m - 1..] && path[..m + 1] == [0x2F] + last[..m];
      assert tail[m + 1] == name[n] && path[m + 1] == last[m];
      SnocEqual(tail, path);
    }
  }

  lemma NoBasename(name: seq<byte>)
    ensures Basename(name) == [] <==> EndsIn(name, [])
  {}

  /** The mode that is written: su and busybox run as root, and /tmp is open to all. */
  function WrittenMode(e: Entry): nat {
    match e
    case Dir(name, mode) => if name == TMP then 0x3FF else mode            // 1777
    case File(name, mode, data) => if Basename(name) in {SU, BUSYBOX} then 0x96D else mode   // 4555
    case Link(name, mode, target) => mode
  }

  function TypeBits(e: Entry): nat {
    match e
    case Dir(_, _) => S_IFDIR
    case File(_, _, _) => S_IFREG
    case Link(_, _, _) => S_IFLNK
  }

  function Content(e: Entry): seq<byte> {
    match e
    case Dir(_, _) => []
    case File(_, _, data) => data
    case Link(_, _, target) => target
  }

  /** Permissions of at most twelve bits and the type bits do not meet. */
  lemma {:induction false} ModeParts(mode: nat, bits: nat)
    requires mode < 0x1000 && bits in {S_IFREG, S_IFDIR, S_IFLNK}
    ensures var m := Or(mode, bits); m == bits + mode && And(m, S_IFMT) == bits && And(m, 0xFFF) == mode
  {
    var high := if bits == S_IFREG then 8 else if bits == S_IFDIR then 4 else 10;
    assert bits == high * 0x1000;
    hide And, Or;
    ModeOr(mode, high);
    ModeAnd(mode, high);
  }

  lemma {:induction false} ModeOr(mode: nat, high: nat)
    requires mode < 0x1000
    ensures Or(mode, high * 0x1000) == high * 0x1000 + mode
  {
    Pow2Twelve();
    hide Or, Pow2;
    OrCommutes(mode, high * 0x1000);
    OrDisjoint(high, mode, 12);
  }

  lemma {:induction false} ModeAnd(mode: nat, high: nat)
    requires mode < 0x1000 && high < 16
    ensures And(high * 0x1000 + mode, 0xF000) == high * 0x1000 && And(high * 0x1000 + mode, 0xFFF) == mode
  {
    var m := high * 0x1000 + mode;
    Pow2Twelve();
    hide And, Pow2;
    AndMask(m, 12);
    AndHigh(m, 4, 12);
    ModUnique(m, 0x1000, high, mode);
  }

  lemma Pow2Twelve()
    ensures Pow2(12) == 0x1000 && Pow2(4) == 16
  {
    Pow2Add(4, 8);
    Pow2Values();
  }

  lemma {:induction false} OrCommutes(x: nat, y: nat)
    ensures Or(x, y) == Or(y, x)
  {
    if x != 0 || y != 0 {
      OrCommutes(x / 2, y / 2);
    }
  }

  // ----- records -----

  /** padding: the bytes to the next multiple of four. */
  function Pad(n: nat): (p: nat)
    ensures p < 4 && (n + p) % 4 == 0
  {
    (4 - n % 4) % 4
  }

  /** The thirteen fields of a header in order. */
  function HeaderFields(name: seq<byte>, mode: nat, nlink: nat, size: nat): seq<nat> {
    [0, mode, 0, 0, nlink, 0, size, 3, 1, 0, 0, |name| + 1, 0]
  }

  function Fields(fs: seq<nat>): seq<byte> {
    if fs == [] then [] else Fields(fs[..|fs| - 1]) + Field(fs[|fs| - 1])
  }

  /** write_cpio_header */
  function Header(name: seq<byte>, mode: nat, nlink: nat, size: nat): seq<byte> {
    MAGIC + Fields(HeaderFields(name, mode, nlink, size)) + name + [0] + Zeros(Pad(|name| + 1 + 110))
  }

  function FullMode(e: Entry): nat { Or(WrittenMode(e), TypeBits(e)) }

  function Nlink(e: Entry): nat { if e.Dir? then 2 else 1 }

  function Record(e: Entry): seq<byte> {
    Header(e.name, FullMode(e), Nlink(e), |Content(e)|) + (Content(e) + Zeros(Pad(|Content(e)|)))
  }

  function Records(es: seq<Entry>): seq<byte> {
    if es == [] then [] else Records(es[..|es| - 1]) + Record(es[|es| - 1])
  }

  /** The padding of the whole archive to a multiple of 512. */
  function Pad512(n: nat): nat { (512 - n % 512) % 512 }

  function Closed(body: seq<byte>): seq<byte> {
    var all := body + Header(TRAILER, 0, 1, 0);
    all + Zeros(Pad512(|all|))
  }

  // ----- parsing -----

  /** read(n) on a stream at pos. */
  function Read(s: seq<byte>, pos: nat, n: nat): seq<byte>
    requires pos <= |s|
  {
    if pos + n <= |s| then s[pos..pos + n] else s[pos..]
  }

  function After(s: seq<byte>, pos: nat, n: nat): (p: nat)
    requires pos <= |s|
    ensures pos <= p <= |s|
  {
    if pos + n <= |s| then pos + n else |s|
  }

  datatype Head = Head(name: seq<byte>, mode: nat, size: nat, next: nat) | BadHead

  /** read_cpio_header. With a name size of zero the name is the rest of the stream, as read(-1) has it. */
  function ReadHead(s: seq<byte>, pos: nat): (h: Head)
    requires pos <= |s|
    ensures h.Head? ==> pos < h.next <= |s|
  {
    assert Read(s, pos, 6) == MAGIC ==> pos < |s|;
    if Read(s, pos, 6) != MAGIC then BadHead
    else
      var mode := HexValue(Read(s, After(s, pos, 14), 8));
      var size := HexValue(Read(s, After(s, pos, 54), 8));
      var namesize := HexValue(Read(s, After(s, pos, 94), 8));
      if mode < 0 || size < 0 || namesize < 0 then BadHead
      else
        var at := After(s, pos, 110);
        if namesize == 0 then Head(s[at..], mode, size, |s|)
        else Head(Read(s, at, namesize - 1), mode, size, After(s, After(s, at, namesize), Pad(namesize + 110)))
  }

  datatype Parsed = Listed(entries: seq<Entry>) | Failed

  function Prepend(es: seq<Entry>, p: Parsed): Parsed {
    if p.Listed? then Listed(es + p.entries) else Failed
  }

  /** The name as it is listed: made absolute, then normalised. */
  function ListedName(name: seq<byte>, norm: seq<byte> -> seq<byte>): seq<byte> {
    norm(if name != [] && name[0] == SLASH then name else [SLASH] + name)
  }

  /** What one record adds to the list, by the type bits of its mode. */
  function EntryOf(h: Head, s: seq<byte>, norm: seq<byte> -> seq<byte>): seq<Entry>
    requires h.Head? && h.next <= |s|
  {
    var name, perm, kind := ListedName(h.name, norm), And(h.mode, 0xFFF), And(h.mode, S_IFMT);
    if kind == S_IFLNK then [Link(name, perm, Read(s, h.next, h.size))]
    else if kind == S_IFDIR then [Dir(name, perm)]
    else if kind == S_IFREG then [File(name, perm, Read(s, h.next, h.size))]
    else []
  }

  /** Where the next record begins; a directory's record has no contents to skip. */
  function NextRecord(h: Head, s: seq<byte>): (p: nat)
    requires h.Head? && h.next <= |s|
    ensures h.next <= p <= |s|
  {
    if And(h.mode, S_IFMT) == S_IFDIR then h.next else After(s, After(s, h.next, h.size), Pad(h.size))
  }

  function Parse(s: seq<byte>, pos: nat, norm: seq<byte> -> seq<byte>): Parsed
    requires pos <= |s|
    decreases |s| - pos
  {
    var h := ReadHead(s, pos);
    if h.BadHead? then Failed
    else if h.name == TRAILER then Listed([])
    else Prepend(EntryOf(h, s, norm), Parse(s, NextRecord(h, s), norm))
  }

  // ----- pieces of a stream -----

  ghost predicate At(s: seq<byte>, pos: nat, t: seq<byte>) {
    pos + |t| <= |s| && s[pos..pos + |t|] == t
  }

  lemma {:induction false} AtSplit(s: seq<byte>, pos: nat, a: seq<byte>, b: seq<byte>)
    requires At(s, pos, a + b)
    ensures At(s, pos, a) && At(s, pos + |a|, b)
  {
    var t := s[pos..pos + |a + b|];
    assert t[..|a|] == a && t[|a|..] == b;
    assert s[pos..pos + |a|] == t[..|a|];
    assert s[pos + |a|..pos + |a| + |b|] == t[|a|..];
  }

  lemma {:induction false} AtReads(s: seq<byte>, pos: nat, t: seq<byte>)
    requires At(s, pos, t)
    ensures pos + |t| <= |s| && Read(s, pos, |t|) == t && After(s, pos, |t|) == pos + |t|
  {}

  lemma {:induction false} AtMiddle(pre: seq<byte>, t: seq<byte>, post: seq<byte>)
    ensures At(pre + t + post, |pre|, t)
  {}

  ghost predicate AllWords(fs: seq<nat>) {
    forall i :: 0 <= i < |fs| ==> fs[i] < TWO32
  }

  lemma {:induction false} FieldsLength(fs: seq<nat>)
    requires AllWords(fs)
    ensures |Fields(fs)| == 8 * |fs|
  {
    if fs != [] {
      FieldsLength(fs[..|fs| - 1]);
      FieldRoundTrip(fs[|fs| - 1]);
    }
  }

  lemma {:induction false} FieldAt(s: seq<byte>, pos: nat, fs: seq<nat>, i: nat)
    requires AllWords(fs) && At(s, pos, Fields(fs)) && i < |fs|
    ensures pos + 8 * i + 8 <= |s| && HexValue(Read(s, pos + 8 * i, 8)) == fs[i]
  {
    var n := |fs| - 1;
    hide At, Field, Fields, Read, AllWords, HexValue;
    FieldsSnoc(fs);
    FieldsLength(fs[..n]);
    FieldRoundTrip(fs[n]);
    AtSplit(s, pos, Fields(fs[..n]), Field(fs[n]));
    if i == n {
      AtReads(s, pos + 8 * n, Field(fs[n]));
    } else {
      FieldAt(s, pos, fs[..n], i);
    }
  }

  lemma FieldsSnoc(fs: seq<nat>)
    requires AllWords(fs) && fs != []
    ensures Fields(fs) == Fields(fs[..|fs| - 1]) + Field(fs[|fs| - 1])
    ensures AllWords(fs[..|fs| - 1]) && fs[|fs| - 1] < TWO32
  {
    hide Field;
  }

  /** The sizes a header can hold. */
  ghost predicate Holdable(name: seq<byte>, mode: nat, nlink: nat, size: nat) {
    mode < TWO32 && nlink < TWO32 && size < TWO32 && |name| + 1 < TWO32
  }

  lemma {:induction false} HeaderLength(name: seq<byte>, mode: nat, nlink: nat, size: nat)
    requires Holdable(name, mode, nlink, size)
    ensures AllWords(HeaderFields(name, mode, nlink, size)) && |Fields(HeaderFields(name, mode, nlink, size))| == 104
    ensures |Header(name, mode, nlink, size)| == 111 + |name| + Pad(|name| + 111)
    ensures |Header(name, mode, nlink, size)| % 4 == 0
  {
    FieldsLength(HeaderFields(name, mode, nlink, size));
    hide Fields, Pad;
  }

  /** The parts of a header, one behind the other. */
  lemma {:induction false} HeaderParts(s: seq<byte>, pos: nat, name: seq<byte>, mode: nat, nlink: nat, size: nat)
    requires Holdable(name, mode, nlink, size) && At(s, pos, Header(name, mode, nlink, size))
    ensures At(s, pos, MAGIC) && At(s, pos + 6, Fields(HeaderFields(name, mode, nlink, size)))
    ensures At(s, pos + 110, name) && pos + 111 + |name| <= |s|
    ensures pos + 111 + |name| + Pad(|name| + 111) <= |s|
  {
    var fields := Fields(HeaderFields(name, mode, nlink, size));
    HeaderLength(name, mode, nlink, size);
    hide Fields, HeaderFields, Pad;
    var pad := Zeros(Pad(|name| + 1 + 110));
    assert Header(name, mode, nlink, size) == MAGIC + fields + name + [0] + pad;
    AtSplit(s, pos, MAGIC + fields + name + [0], pad);
    AtSplit(s, pos, MAGIC + fields + name, [0]);
    AtSplit(s, pos, MAGIC + fields, name);
    AtSplit(s, pos, MAGIC, fields);
  }

  lemma FieldPlaces(name: seq<byte>, mode: nat, nlink: nat, size: nat)
    ensures var fs := HeaderFields(name, mode, nlink, size);
            |MAGIC| == 6 && |fs| == 13 && fs[1] == mode && fs[6] == size && fs[11] == |name| + 1
  {}

  lemma {:induction false} HeaderReads(s: seq<byte>, pos: nat, name: seq<byte>, mode: nat, nlink: nat, size: nat)
    requires Holdable(name, mode, nlink, size) && At(s, pos, Header(name, mode, nlink, size))
    ensures pos + 110 <= |s| && Read(s, pos, 6) == MAGIC
    ensures HexValue(Read(s, pos + 14, 8)) == mode && HexValue(Read(s, pos + 54, 8)) == size
    ensures HexValue(Read(s, pos + 94, 8)) == |name| + 1 && Read(s, pos + 110, |name|) == name
  {
    hide *;
    var fs := HeaderFields(name, mode, nlink, size);
    FieldPlaces(name, mode, nlink, size);
    HeaderParts(s, pos, name, mode, nlink, size);
    HeaderLength(name, mode, nlink, size);
    AtReads(s, pos, MAGIC);
    AtReads(s, pos + 110, name);
    FieldAt(s, pos + 6, fs, 1);
    FieldAt(s, pos + 6, fs, 6);
    FieldAt(s, pos + 6, fs, 11);
  }

  /** Reading a written header gives back its name, mode and size, and leaves the stream exactly behind it. */
  lemma {:induction false} HeadRoundTrip(s: seq<byte>, pos: nat, name: seq<byte>, mode: nat, nlink: nat, size: nat)
    requires Holdable(name, mode, nlink, size) && At(s, pos, Header(name, mode, nlink, size))
    ensures pos + |Header(name, mode, nlink, size)| <= |s|
    ensures ReadHead(s, pos) == Head(name, mode, size, pos + |Header(name, mode, nlink, size)|)
  {
    HeaderReads(s, pos, name, mode, nlink, size);
    HeaderParts(s, pos, name, mode, nlink, size);
    HeaderLength(name, mode, nlink, size);
    hide Read, At, Header, HexValue, Pad;
  }

  // ----- the bytes of an archive -----

  function Pow16(k: nat): (p: nat)
    ensures p > 0
  {
    if k == 0 then 1 else 16 * Pow16(k - 1)
  }

  /** A field shows its number in lower-case hexadecimal digits, the most significant first. */
  lemma {:induction false} HexDigits(n: nat, digits: nat, k: nat)
    requires k < digits
    ensures 0 <= n / Pow16(k) % 16 < 16
    ensures Hex(n, digits)[digits - 1 - k]
         == [0x30, 0x31, 0x32, 0x33, 0x34, 0x35, 0x36, 0x37, 0x38, 0x39, 0x61, 0x62, 0x63, 0x64, 0x65, 0x66]
            [n / Pow16(k) % 16]
    decreases digits
  {
    if k == 0 {
      assert Pow16(0) == 1 && n / 1 == n;
    } else {
      HexDigits(n / 16, digits - 1, k - 1);
      DivTwice(n, Pow16(k - 1));
    }
  }

  lemma DivTwice(n: nat, p: nat)
    requires p > 0
    ensures n / (16 * p) == n / 16 / p
  {
    var q := n / 16 / p;
    var r := n - 16 * p * q;
    assert n / 16 == p * q + n / 16 % p;
    assert 16 * (p * q) == (16 * p) * q;
    ModUnique(n, 16 * p, q, r);
  }

  /** The fields of a record at their offsets. */
  lemma {:induction false} RecordFields(e: Entry)
    requires Storable(e)
    ensures |Record(e)| >= 111 + |e.name| && Record(e)[..6] == [0x30, 0x37, 0x30, 0x37, 0x30, 0x31]
    ensures HexValue(Record(e)[6..14]) == 0
    ensures HexValue(Record(e)[14..22]) == (if e.Dir? then 0x4000 else if e.File? then 0x8000 else 0xA000) + WrittenMode(e)
    ensures HexValue(Record(e)[22..30]) == 0 && HexValue(Record(e)[30..38]) == 0
    ensures HexValue(Record(e)[38..46]) == (if e.Dir? then 2 else 1) && HexValue(Record(e)[46..54]) == 0
    ensures HexValue(Record(e)[54..62]) == (if e.Dir? then 0 else if e.File? then |e.data| else |e.target|)
    ensures HexValue(Record(e)[62..70]) == 3 && HexValue(Record(e)[70..78]) == 1
    ensures HexValue(Record(e)[78..86]) == 0 && HexValue(Record(e)[86..94]) == 0
    ensures HexValue(Record(e)[94..102]) == |e.name| + 1 && HexValue(Record(e)[102..110]) == 0
    ensures Record(e)[110..110 + |e.name|] == e.name && Record(e)[110 + |e.name|] == 0
  {
    RecordValues(e);
    ContentSize(e);
    hide *;
    RecordFront(e);
    FieldOf(e, 0, 6, 14);
    FieldOf(e, 1, 14, 22);
    FieldOf(e, 2, 22, 30);
    FieldOf(e, 3, 30, 38);
    FieldOf(e, 4, 38, 46);
    FieldOf(e, 5, 46, 54);
    FieldOf(e, 6, 54, 62);
    FieldOf(e, 7, 62, 70);
    FieldOf(e, 8, 70, 78);
    FieldOf(e, 9, 78, 86);
    FieldOf(e, 10, 86, 94);
    FieldOf(e, 11, 94, 102);
    FieldOf(e, 12, 102, 110);
  }

  lemma {:induction false} FieldOf(e: Entry, i: nat, from: nat, to: nat)
    requires Storable(e) && i < |HeaderFields(e.name, FullMode(e), Nlink(e), |Content(e)|)|
    requires from == 6 + 8 * i && to == from + 8
    ensures to <= |Record(e)|
    ensures HexValue(Record(e)[from..to]) == HeaderFields(e.name, FullMode(e), Nlink(e), |Content(e)|)[i]
  {
    hide *;
    WholeRecord(Record(e));
    RecordHoldable(e);
    RecordSplit(Record(e), 0, e);
    HeaderParts(Record(e), 0, e.name, FullMode(e), Nlink(e), |Content(e)|);
    HeaderLength(e.name, FullMode(e), Nlink(e), |Content(e)|);
    FieldAt(Record(e), 6, HeaderFields(e.name, FullMode(e), Nlink(e), |Content(e)|), i);
    ReadIs(Record(e), from, 8);
  }

  lemma {:induction false} RecordFront(e: Entry)
    requires Storable(e)
    ensures |Record(e)| >= 111 + |e.name| && Record(e)[..6] == [0x30, 0x37, 0x30, 0x37, 0x30, 0x31]
    ensures Record(e)[110..110 + |e.name|] == e.name && Record(e)[110 + |e.name|] == 0
  {
    hide *;
    WholeRecord(Record(e));
    RecordHoldable(e);
    RecordSplit(Record(e), 0, e);
    HeaderEnd(Record(e), e.name, FullMode(e), Nlink(e), |Content(e)|);
  }

  lemma ReadIs(s: seq<byte>, pos: nat, n: nat)
    requires pos + n <= |s|
    ensures Read(s, pos, n) == s[pos..pos + n]
  {}

  lemma WholeRecord(s: seq<byte>)
    ensures At(s, 0, s)
  {}

  lemma HeaderEnd(s: seq<byte>, name: seq<byte>, mode: nat, nlink: nat, size: nat)
    requires Holdable(name, mode, nlink, size) && At(s, 0, Header(name, mode, nlink, size))
    ensures |s| >= 111 + |name| && s[..6] == [0x30, 0x37, 0x30, 0x37, 0x30, 0x31]
    ensures s[110..110 + |name|] == name && s[110 + |name|] == 0
  {
    HeaderLength(name, mode, nlink, size);
    HeaderParts(s, 0, name, mode, nlink, size);
    hide Fields, HeaderFields, Pad, Zeros;
    var fields := Fields(HeaderFields(name, mode, nlink, size));
    assert Header(name, mode, nlink, size) == MAGIC + fields + name + [0] + Zeros(Pad(|name| + 1 + 110));
    AtSplit(s, 0, MAGIC + fields + name + [0], Zeros(Pad(|name| + 1 + 110)));
    AtSplit(s, 0, MAGIC + fields + name, [0]);
    assert s[110 + |name|..111 + |name|] == [0];
    assert s[110 + |name|] == s[110 + |name|..111 + |name|][0];
  }

  lemma RecordValues(e: Entry)
    requires Storable(e)
    ensures var fs := HeaderFields(e.name, FullMode(e), Nlink(e), |Content(e)|);
            && |fs| == 13 && fs[0] == 0 && fs[2] == 0 && fs[3] == 0 && fs[5] == 0 && fs[7] == 3 && fs[8] == 1 && fs[9] == 0
            && fs[10] == 0 && fs[11] == |e.name| + 1 && fs[12] == 0 && fs[4] == (if e.Dir? then 2 else 1)
            && fs[1] == (if e.Dir? then 0x4000 else if e.File? then 0x8000 else 0xA000) + WrittenMode(e)
            && fs[6] == |Content(e)|
  {
    ModeParts(WrittenMode(e), TypeBits(e));
    hide WrittenMode, Or, And;
  }

  lemma ContentSize(e: Entry)
    ensures |Content(e)| == if e.Dir? then 0 else if e.File? then |e.data| else |e.target|
  {}

  /** The archive ends at a multiple of 512 bytes, less than that behind the trailer's record, and only zeros are added. */
  lemma ClosedBlocks(body: seq<byte>)
    ensures |Closed(body)| % 512 == 0
    ensures var all := body + Header([0x54, 0x52, 0x41, 0x49, 0x4C, 0x45, 0x52, 0x21, 0x21, 0x21], 0, 1, 0);
            && |all| <= |Closed(body)| < |all| + 512 && Closed(body)[..|all|] == all
            && forall i :: |all| <= i < |Closed(body)| ==> Closed(body)[i] == 0
  {
    hide Header;
  }

  // ----- the round trip -----

  /** What an archive can hold: permissions of twelve bits, sizes of 32 bits, and not the trailer's name. */
  ghost predicate Storable(e: Entry) {
    WrittenMode(e) < 0x1000 && |Content(e)| < TWO32 && |e.name| + 1 < TWO32 && e.name != TRAILER
  }

  /** The entry as the parser lists it: the listed name, and the mode after the overrides. */
  function Seen(e: Entry, norm: seq<byte> -> seq<byte>): Entry {
    var name, mode := ListedName(e.name, norm), WrittenMode(e);
    match e
    case Dir(_, _) => Dir(name, mode)
    case File(_, _, data) => File(name, mode, data)
    case Link(_, _, target) => Link(name, mode, target)
  }

  function SeenAll(es: seq<Entry>, k: nat, norm: seq<byte> -> seq<byte>): seq<Entry>
    requires k <= |es|
    decreases |es| - k
  {
    if k == |es| then [] else [Seen(es[k], norm)] + SeenAll(es, k + 1, norm)
  }

  lemma {:induction false} FullModeParts(e: Entry)
    requires Storable(e)
    ensures FullMode(e) < TWO32 && And(FullMode(e), S_IFMT) == TypeBits(e) && And(FullMode(e), 0xFFF) == WrittenMode(e)
  {
    ModeParts(WrittenMode(e), TypeBits(e));
    hide WrittenMode, Or, And;
  }

  lemma {:induction false} RecordHoldable(e: Entry)
    requires Storable(e)
    ensures Holdable(e.name, FullMode(e), Nlink(e), |Content(e)|)
  {
    FullModeParts(e);
    hide FullMode, Content, WrittenMode, And;
  }

  lemma {:induction false} RecordAligned(e: Entry)
    requires Storable(e)
    ensures |Record(e)| % 4 == 0
  {
    RecordLength(e);
    hide *;
    RecordHoldable(e);
    HeaderLength(e.name, FullMode(e), Nlink(e), |Content(e)|);
    SumOfFours(|Header(e.name, FullMode(e), Nlink(e), |Content(e)|)|, |Content(e)| + Pad(|Content(e)|));
  }

  lemma RecordLength(e: Entry)
    ensures Record(e) == Header(e.name, FullMode(e), Nlink(e), |Content(e)|) + (Content(e) + Zeros(Pad(|Content(e)|)))
    ensures |Record(e)| == |Header(e.name, FullMode(e), Nlink(e), |Content(e)|)| + (|Content(e)| + Pad(|Content(e)|))
  {
    hide Header, Content, Pad, FullMode, Nlink;
  }

  lemma SumOfFours(a: nat, b: nat)
    requires a % 4 == 0 && b % 4 == 0
    ensures (a + b) % 4 == 0
  {}

  lemma AtEnd(s: seq<byte>, pos: nat, t: seq<byte>)
    requires At(s, pos, t)
    ensures pos + |t| <= |s|
  {}

  lemma {:induction false} RecordSplit(s: seq<byte>, pos: nat, e: Entry)
    requires At(s, pos, Record(e))
    ensures var head := Header(e.name, FullMode(e), Nlink(e), |Content(e)|);
            && At(s, pos, head) && At(s, pos + |head|, Content(e))
            && pos + |head| + |Content(e)| + Pad(|Content(e)|) == pos + |Record(e)| <= |s|
  {
    hide *;
    var head, pad := Header(e.name, FullMode(e), Nlink(e), |Content(e)|), Zeros(Pad(|Content(e)|));
    RecordLength(e);
    AtEnd(s, pos, Record(e));
    AtSplit(s, pos, head, Content(e) + pad);
    AtSplit(s, pos + |head|, Content(e), pad);
  }

  lemma DirHasNoContent(e: Entry)
    ensures e.Dir? ==> |Content(e)| == 0 && Pad(0) == 0
  {}

  lemma AfterInside(s: seq<byte>, pos: nat, n: nat)
    requires pos + n <= |s|
    ensures After(s, pos, n) == pos + n
  {}

  /** A record is read whole: its head, its contents, and the position behind its padding. */
  lemma {:induction false} RecordReads(s: seq<byte>, pos: nat, e: Entry)
    requires Storable(e) && At(s, pos, Record(e))
    ensures pos + |Record(e)| <= |s|
    ensures var h := ReadHead(s, pos);
            && h.Head? && h.next <= |s| && h.name == e.name && h.mode == FullMode(e) && h.size == |Content(e)|
            && Read(s, h.next, h.size) == Content(e)
            && After(s, After(s, h.next, h.size), Pad(h.size)) == pos + |Record(e)|
            && (e.Dir? ==> h.next == pos + |Record(e)|)
  {
    hide *;
    RecordHoldable(e);
    RecordSplit(s, pos, e);
    HeadRoundTrip(s, pos, e.name, FullMode(e), Nlink(e), |Content(e)|);
    var at := pos + |Header(e.name, FullMode(e), Nlink(e), |Content(e)|)|;
    AtReads(s, at, Content(e));
    AfterInside(s, at + |Content(e)|, Pad(|Content(e)|));
    DirHasNoContent(e);
  }

  lemma {:induction false} ListedAsSeen(h: Head, s: seq<byte>, e: Entry, norm: seq<byte> -> seq<byte>)
    requires h.Head? && h.next <= |s| && h.name == e.name && Read(s, h.next, h.size) == Content(e)
    requires And(h.mode, S_IFMT) == TypeBits(e) && And(h.mode, 0xFFF) == WrittenMode(e)
    ensures EntryOf(h, s, norm) == [Seen(e, norm)]
    ensures And(h.mode, S_IFMT) == S_IFDIR <==> e.Dir?
  {
    hide And, Read, WrittenMode, ListedName;
  }

  lemma NotTrailer(e: Entry)
    requires Storable(e)
    ensures e.name != TRAILER
  {}

  lemma {:induction false} ParseStep(s: seq<byte>, pos: nat, norm: seq<byte> -> seq<byte>)
    requires pos <= |s| && ReadHead(s, pos).Head? && ReadHead(s, pos).name != TRAILER
    ensures var h := ReadHead(s, pos);
            h.next <= |s| && Parse(s, pos, norm) == Prepend(EntryOf(h, s, norm), Parse(s, NextRecord(h, s), norm))
  {
    hide ReadHead, EntryOf, NextRecord;
  }

  lemma {:induction false} ParseOne(s: seq<byte>, pos: nat, e: Entry, norm: seq<byte> -> seq<byte>)
    requires Storable(e) && At(s, pos, Record(e))
    ensures pos + |Record(e)| <= |s|
    ensures Parse(s, pos, norm) == Prepend([Seen(e, norm)], Parse(s, pos + |Record(e)|, norm))
  {
    hide *;
    RecordReads(s, pos, e);
    FullModeParts(e);
    NotTrailer(e);
    var h := ReadHead(s, pos);
    ListedAsSeen(h, s, e, norm);
    NextRecordIs(h, s, pos + |Record(e)|);
    ParseStep(s, pos, norm);
  }

  lemma NextRecordIs(h: Head, s: seq<byte>, end: nat)
    requires h.Head? && h.next <= |s| && After(s, After(s, h.next, h.size), Pad(h.size)) == end
    requires And(h.mode, S_IFMT) == S_IFDIR ==> h.next == end
    ensures NextRecord(h, s) == end
  {
    hide And, After, Pad;
  }

  lemma {:induction false} ParseTrailer(s: seq<byte>, pos: nat, norm: seq<byte> -> seq<byte>)
    requires At(s, pos, Header(TRAILER, 0, 1, 0))
    ensures pos <= |s| && Parse(s, pos, norm) == Listed([])
  {
    HeadRoundTrip(s, pos, TRAILER, 0, 1, 0);
    hide Header, ReadHead;
  }

  ghost predicate AllStorable(es: seq<Entry>) {
    forall i :: 0 <= i < |es| ==> Storable(es[i])
  }

  lemma RecordsSnoc(es: seq<Entry>)
    requires es != []
    ensures Records(es) == Records(es[..|es| - 1]) + Record(es[|es| - 1])
  {}

  lemma StorablePrefix(es: seq<Entry>)
    requires es != [] && AllStorable(es)
    ensures AllStorable(es[..|es| - 1]) && Storable(es[|es| - 1])
  {
    hide Storable;
  }

  lemma AppendFours(a: seq<byte>, b: seq<byte>)
    requires |a| % 4 == 0 && |b| % 4 == 0
    ensures |a + b| % 4 == 0
  {}

  lemma NoRecords()
    ensures |Records([])| % 4 == 0
  {}

  /** Every record begins at a multiple of four. */
  lemma {:induction false} RecordsAligned(es: seq<Entry>)
    requires AllStorable(es)
    ensures |Records(es)| % 4 == 0
  {
    hide *;
    if es == [] {
      NoRecords();
    } else {
      StorablePrefix(es);
      RecordsSnoc(es);
      RecordsAligned(es[..|es| - 1]);
      RecordAligned(es[|es| - 1]);
      AppendFours(Records(es[..|es| - 1]), Record(es[|es| - 1]));
    }
  }

  lemma {:induction false} RecordFound(es: seq<Entry>, k: nat, post: seq<byte>)
    requires k < |es|
    ensures At(Records(es) + post, |Records(es[..k])|, Record(es[k]))
    ensures |Records(es[..k + 1])| == |Records(es[..k])| + |Record(es[k])|
    decreases |es|
  {
    var n := |es| - 1;
    hide *;
    RecordsSnoc(es);
    if k == n {
      AtMiddle(Records(es[..n]), Record(es[n]), post);
      assert es[..n + 1] == es;
    } else {
      RecordFound(es[..n], k, Record(es[n]) + post);
      assert es[..n][..k] == es[..k] && es[..n][..k + 1] == es[..k + 1];
      Regroup(Records(es[..n]), Record(es[n]), post);
    }
  }

  lemma Regroup(a: seq<byte>, b: seq<byte>, c: seq<byte>)
    ensures a + b + c == a + (b + c)
  {}

  lemma {:induction false} ParseFrom(es: seq<Entry>, k: nat, post: seq<byte>, norm: seq<byte> -> seq<byte>)
    requires AllStorable(es) && k <= |es|
    requires At(Records(es) + post, |Records(es)|, Header(TRAILER, 0, 1, 0))
    ensures |Records(es[..k])| <= |Records(es) + post|
    ensures Parse(Records(es) + post, |Records(es[..k])|, norm) == Listed(SeenAll(es, k, norm))
    decreases |es| - k
  {
    var s := Records(es) + post;
    hide *;
    if k == |es| {
      assert es[..k] == es;
      ParseTrailer(s, |Records(es)|, norm);
    } else {
      ParseFrom(es, k + 1, post, norm);
      StorableAt(es, k);
      RecordFound(es, k, post);
      ParseOne(s, |Records(es[..k])|, es[k], norm);
    }
    SeenStep(es, k, norm);
  }

  lemma StorableAt(es: seq<Entry>, k: nat)
    requires AllStorable(es) && k < |es|
    ensures Storable(es[k])
  {}

  lemma SeenStep(es: seq<Entry>, k: nat, norm: seq<byte> -> seq<byte>)
    requires k <= |es|
    ensures k == |es| ==> SeenAll(es, k, norm) == []
    ensures k < |es| ==>
              Listed(SeenAll(es, k, norm)) == Prepend([Seen(es[k], norm)], Listed(SeenAll(es, k + 1, norm)))
  {
    hide Seen;
  }

  /** Parsing a written archive gives back every entry: kinds, contents, listed names, and modes after the overrides;
      the trailer ends it. */
  lemma {:induction false} RoundTrip(es: seq<Entry>, norm: seq<byte> -> seq<byte>)
    requires AllStorable(es)
    ensures Parse(Closed(Records(es)), 0, norm) == Listed(SeenAll(es, 0, norm))
  {
    var trailer := Header(TRAILER, 0, 1, 0);
    var pad := Zeros(Pad512(|Records(es) + trailer|));
    AtMiddle(Records(es), trailer, pad);
    Regroup(Records(es), trailer, pad);
    assert es[..0] == [];
    hide Header, At, AllStorable;
    ParseFrom(es, 0, trailer + pad, norm);
  }

  // ----- the writing and the parsing loops -----

  /** The entries that are written: a name that was there before is ignored. */
  function Dedup(es: seq<Entry>): (r: seq<Entry>) {
    if es == [] then []
    else
      var rest, last := Dedup(es[..|es| - 1]), es[|es| - 1];
      if NameIn(es[..|es| - 1], last.name) then rest else rest + [last]
  }

  predicate NameIn(es: seq<Entry>, name: seq<byte>) {
    exists i :: 0 <= i < |es| && es[i].name == name
  }

  /** write_cpio: one record for each new name, then the trailer. */
  method WriteCpio(es: seq<Entry>) returns (output: seq<byte>)
    ensures output == Closed(Records(Dedup(es))) && |output| % 512 == 0
  {
    ClosedBlocks(Records(Dedup(es)));
    output := [];
    var files: seq<seq<byte>> := [];
    hide Record, Header;
    for k := 0 to |es|
      invariant output == Records(Dedup(es[..k]))
      invariant forall name :: name in files <==> NameIn(es[..k], name)
    {
      DedupStep(es, k);
      if es[k].name !in files {
        files := files + [es[k].name];
        output := output + Record(es[k]);
      }
    }
    assert es[..|es|] == es;
    var trailer := Header(TRAILER, 0, 1, 0);
    output := output + trailer + Zeros(Pad512(|output + trailer|));
  }

  lemma {:induction false} DedupStep(es: seq<Entry>, k: nat)
    requires k < |es|
    ensures Dedup(es[..k + 1]) == if NameIn(es[..k], es[k].name) then Dedup(es[..k]) else Dedup(es[..k]) + [es[k]]
    ensures !NameIn(es[..k], es[k].name) ==> Records(Dedup(es[..k + 1])) == Records(Dedup(es[..k])) + Record(es[k])
    ensures forall name :: NameIn(es[..k + 1], name) <==> NameIn(es[..k], name) || name == es[k].name
  {
    var pre, all := es[..k], es[..k + 1];
    assert all[..k] == pre && all[k] == es[k];
    forall name
      ensures NameIn(all, name) <==> NameIn(pre, name) || name == es[k].name
    {
      if NameIn(pre, name) {
        var i :| 0 <= i < |pre| && pre[i].name == name;
        assert all[i].name == name;
      }
      if NameIn(all, name) {
        var i :| 0 <= i < |all| && all[i].name == name;
        assert i < k ==> pre[i].name == name;
      }
    }
    var d := Dedup(pre);
    assert (d + [es[k]])[..|d|] == d;
    hide NameIn, Record;
  }

  /** parse_cpio: records up to the trailer; ok is false where the source raises. */
  method ParseCpio(s: seq<byte>, norm: seq<byte> -> seq<byte>) returns (entries: seq<Entry>, ok: bool)
    ensures Parse(s, 0, norm) == if ok then Listed(entries) else Failed
  {
    hide ReadHead, EntryOf, NextRecord;
    entries := [];
    var pos: nat := 0;
    while true
      invariant pos <= |s| && Parse(s, 0, norm) == Prepend(entries, Parse(s, pos, norm))
      decreases |s| - pos
    {
      var h := ReadHead(s, pos);
      if h.BadHead? {
        return entries, false;
      }
      if h.name == TRAILER {
        return entries, true;
      }
      PrependTwice(entries, EntryOf(h, s, norm), Parse(s, NextRecord(h, s), norm));
      entries := entries + EntryOf(h, s, norm);
      pos := NextRecord(h, s);
    }
  }

  lemma PrependTwice(a: seq<Entry>, b: seq<Entry>, p: Parsed)
    ensures Prepend(a, Prepend(b, p)) == Prepend(a + b, p)
  {
    if p.Listed? {
      assert a + (b + p.entries) == a + b + p.entries;
    }
  }

  lemma {:induction false} DedupKeeps(es: seq<Entry>)
    requires AllStorable(es)
    ensures AllStorable(Dedup(es))
  {
    if es != [] {
      StorablePrefix(es);
      DedupKeeps(es[..|es| - 1]);
    }
    hide Storable, NameIn;
  }

  ghost predicate Distinct(es: seq<Entry>) {
    forall i, j :: 0 <= i < j < |es| ==> es[i].name != es[j].name
  }

  /** Absolute names in normal form. */
  ghost predicate Normal(es: seq<Entry>, norm: seq<byte> -> seq<byte>) {
    forall i :: 0 <= i < |es| ==> es[i].name != [] && es[i].name[0] == SLASH && norm(es[i].name) == es[i].name
  }

  /** The entry comes back under this name with its contents; /tmp with mode 1777, su and busybox with 4555, everything
      else with its own. */
  predicate CameBack(e: Entry, name: seq<byte>, r: Entry) {
    match e
    case Dir(_, mode) => r == Dir(name, if e.name == [0x2F, 0x74, 0x6D, 0x70] then 0x3FF else mode)
    case File(_, mode, data) =>
      var super := EndsIn(e.name, [0x73, 0x75]) || EndsIn(e.name, [0x62, 0x75, 0x73, 0x79, 0x62, 0x6F, 0x78]);
      r == File(name, if super then 0x96D else mode, data)
    case Link(_, mode, target) => r == Link(name, mode, target)
  }

  lemma {:induction false} SeenCameBack(e: Entry, norm: seq<byte> -> seq<byte>)
    ensures CameBack(e, norm(if e.name != [] && e.name[0] == 0x2F then e.name else [0x2F] + e.name), Seen(e, norm))
  {
    if e.File? {
      BasenameIs(e.name, SU);
      BasenameIs(e.name, BUSYBOX);
    }
    hide Basename, EndsIn;
  }

  lemma {:induction false} DistinctDedup(es: seq<Entry>)
    requires Distinct(es)
    ensures Dedup(es) == es
  {
    if es != [] {
      var n := |es| - 1;
      LastIsNew(es);
      assert es[..n] + [es[n]] == es;
      hide Distinct, NameIn;
      DistinctDedup(es[..n]);
    }
  }

  lemma {:induction false} LastIsNew(es: seq<Entry>)
    requires Distinct(es) && es != []
    ensures Distinct(es[..|es| - 1]) && !NameIn(es[..|es| - 1], es[|es| - 1].name)
  {}

  lemma {:induction false} SeenAt(es: seq<Entry>, k: nat, norm: seq<byte> -> seq<byte>, i: nat)
    requires k <= i < |es|
    ensures |SeenAll(es, k, norm)| == |es| - k && SeenAll(es, k, norm)[i - k] == Seen(es[i], norm)
    decreases |es| - k
  {
    hide Seen;
    if k < i {
      SeenAt(es, k + 1, norm, i);
    } else {
      SeenLength(es, k + 1, norm);
    }
  }

  lemma {:induction false} SeenLength(es: seq<Entry>, k: nat, norm: seq<byte> -> seq<byte>)
    requires k <= |es|
    ensures |SeenAll(es, k, norm)| == |es| - k
    decreases |es| - k
  {
    hide Seen;
    if k < |es| {
      SeenLength(es, k + 1, norm);
    }
  }

  /** A list of different names comes back entry by entry: the names made absolute and normalised, kinds and contents
      as they were. */
  lemma {:induction false} SameList(es: seq<Entry>, norm: seq<byte> -> seq<byte>)
    requires AllStorable(es) && Distinct(es)
    ensures var p := Parse(Closed(Records(Dedup(es))), 0, norm);
            p.Listed? && |p.entries| == |es| && forall i :: 0 <= i < |es| ==>
              var name := es[i].name;
              CameBack(es[i], norm(if name != [] && name[0] == 0x2F then name else [0x2F] + name), p.entries[i])
  {
    hide *;
    DistinctDedup(es);
    RoundTrip(es, norm);
    SeenLength(es, 0, norm);
    forall i | 0 <= i < |es|
      ensures var name := es[i].name;
              CameBack(es[i], norm(if name != [] && name[0] == 0x2F then name else [0x2F] + name), SeenAll(es, 0, norm)[i])
    {
      SeenAt(es, 0, norm, i);
      SeenCameBack(es[i], norm);
    }
  }

  /** With absolute names in normal form, under the same names. */
  lemma {:induction false} SameNames(es: seq<Entry>, norm: seq<byte> -> seq<byte>)
    requires AllStorable(es) && Distinct(es) && Normal(es, norm)
    ensures var p := Parse(Closed(Records(Dedup(es))), 0, norm);
            p.Listed? && |p.entries| == |es| && forall i :: 0 <= i < |es| ==> CameBack(es[i], es[i].name, p.entries[i])
  {
    SameList(es, norm);
    hide AllStorable, Distinct, Parse, Closed, Records, Dedup, CameBack;
    assert SLASH == 0x2F;
  }

  /** What is written: of every name the first entry, and no other. */
  lemma {:induction false} DedupFirsts(es: seq<Entry>)
    ensures Distinct(Dedup(es))
    ensures forall i :: 0 <= i < |es| ==> NameIn(Dedup(es), es[i].name)
    ensures forall e :: e in Dedup(es) ==> exists i :: 0 <= i < |es| && es[i] == e && !NameIn(es[..i], e.name)
  {
    if es != [] {
      var n := |es| - 1;
      var most := es[..n];
      DedupFirsts(most);
      forall e | e in Dedup(es)
        ensures exists i :: 0 <= i < |es| && es[i] == e && !NameIn(es[..i], e.name)
      {
        if e in Dedup(most) {
          var i :| 0 <= i < |most| && most[i] == e && !NameIn(most[..i], e.name);
          assert most[..i] == es[..i] && es[i] == e;
        } else {
          assert es[n] == e;
        }
      }
      if !NameIn(most, es[n].name) {
        NewName(most, es[n]);
      }
      forall i | 0 <= i < |es|
        ensures NameIn(Dedup(es), es[i].name)
      {
        KeptName(es, most, i);
      }
    }
  }

  lemma NewName(most: seq<Entry>, last: Entry)
    requires Distinct(Dedup(most)) && !NameIn(most, last.name)
    requires forall e :: e in Dedup(most) ==> exists i :: 0 <= i < |most| && most[i] == e && !NameIn(most[..i], e.name)
    ensures Distinct(Dedup(most) + [last])
  {
    var d := Dedup(most);
    forall i | 0 <= i < |d|
      ensures d[i].name != last.name
    {
      assert d[i] in d;
    }
  }

  lemma KeptName(es: seq<Entry>, most: seq<Entry>, i: nat)
    requires es != [] && most == es[..|es| - 1] && i < |es|
    requires forall j :: 0 <= j < |most| ==> NameIn(Dedup(most), most[j].name)
    ensures NameIn(Dedup(es), es[i].name)
  {
    var n, rest := |es| - 1, Dedup(most);
    if i < n {
      assert most[i] == es[i];
      StillIn(es, most, es[i].name);
    } else if NameIn(most, es[n].name) {
      var j :| 0 <= j < n && most[j].name == es[n].name;
      StillIn(es, most, most[j].name);
    } else {
      assert Dedup(es)[|rest|] == es[n];
    }
  }

  lemma StillIn(es: seq<Entry>, most: seq<Entry>, name: seq<byte>)
    requires es != [] && most == es[..|es| - 1] && NameIn(Dedup(most), name)
    ensures NameIn(Dedup(es), name)
  {
    var k :| 0 <= k < |Dedup(most)| && Dedup(most)[k].name == name;
    assert Dedup(es)[k] == Dedup(most)[k];
  }

  /** Writing a list and parsing the archive lists every entry with a new name, in order. */
  method WriteAndParse(es: seq<Entry>, norm: seq<byte> -> seq<byte>) returns (entries: seq<Entry>, ok: bool)
    requires AllStorable(es)
    ensures ok && entries == SeenAll(Dedup(es), 0, norm)
    ensures Distinct(es) && Normal(es, norm) ==>
              |entries| == |es| && forall i :: 0 <= i < |es| ==> CameBack(es[i], es[i].name, entries[i])
  {
    hide *;
    var archive := WriteCpio(es);
    entries, ok := ParseCpio(archive, norm);
    DedupKeeps(es);
    RoundTrip(Dedup(es), norm);
    if Distinct(es) && Normal(es, norm) {
      SameNames(es, norm);
    }
  }
}
